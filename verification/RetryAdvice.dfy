/** `CodexRetryAdviceRewriter`: the stream rewriter that gives overload events a Retry-After
    header, updated in place and proved against `EventStream.Drain`. */
module RetryAdvice {
  import opened Wrappers
  import opened EventStream

  const DATA: Text := [100, 97, 116, 97, 58]       // "data:"
  const DATA_SPACE: Text := DATA + [32]

  // ------------------------------------------------------------------ lines of one event

  function IndexOf(t: Text, c: byte): (n: nat)
    ensures n <= |t| && (n < |t| ==> t[n] == c) && c !in t[..n]
  {
    if t == [] || t[0] == c then 0
    else
      var n := 1 + IndexOf(t[1..], c);
      assert t[..n] == [t[0]] + t[1..][..n - 1];
      n
  }

  function Chomp(line: Text): Text {
    if line != [] && line[|line| - 1] == CR then line[..|line| - 1] else line
  }

  /** The lines of a text: ended by LF or CR LF, the last one ended by the text. */
  function Lines(t: Text): seq<Text>
    decreases |t|
  {
    if t == [] then []
    else
      var n := IndexOf(t, LF);
      if n == |t| then [t] else [Chomp(t[..n])] + Lines(t[n + 1..])
  }

  function Join(lines: seq<Text>): Text {
    if lines == [] then []
    else if |lines| == 1 then lines[0]
    else lines[0] + [LF] + Join(lines[1..])
  }

  predicate IsData(line: Text) {
    DATA <= line
  }

  /** Where the first data line is, or the number of lines. */
  function DataLine(lines: seq<Text>): (i: nat)
    ensures i <= |lines| && (i < |lines| ==> IsData(lines[i])) && forall j :: 0 <= j < i ==> !IsData(lines[j])
  {
    if lines == [] || IsData(lines[0]) then 0 else 1 + DataLine(lines[1..])
  }

  // ------------------------------------------------------------------ rewriting one event

  /** What the JSON after "data:" says: its string `type`, its string error code, and its text
      once the Retry-After header is set. */
  datatype Payload = Malformed | Json(kind: Option<string>, code: Option<string>, marked: Text)

  /** Lossy UTF-8 decoding and JSON, with which the rewriter is used. */
  datatype Codec = Codec(lossy: Text -> Text, parse: Text -> Payload)

  /** The payload of the first data line of an event. */
  function PayloadOf(codec: Codec, event: Text): Payload {
    var lines := Lines(event);
    var i := DataLine(lines);
    if i == |lines| then Malformed else codec.parse(lines[i][|DATA|..])
  }

  predicate IsResponse(codec: Codec, event: Text) {
    var p := PayloadOf(codec, event);
    p.Json? && p.kind.Some?
  }

  predicate IsOverload(codec: Codec, event: Text) {
    var p := PayloadOf(codec, event);
    p.Json? && p.kind in {Some("error"), Some("response.failed")} && p.code == Some("server_is_overloaded")
  }

  /** `rewrite_codex_retry_advice_event`. */
  function Rewrite(codec: Codec, event: Text, subscription: bool, started: bool): Rewritten {
    var lines := Lines(event);
    var i := DataLine(lines);
    if i == |lines| then Rewritten(event, false, false)
    else
      match codec.parse(lines[i][|DATA|..])
      case Malformed => Rewritten(event, false, false)
      case Json(kind, code, marked) =>
        var overload := kind in {Some("error"), Some("response.failed")} && code == Some("server_is_overloaded");
        if !(subscription && started && overload) then Rewritten(event, false, kind.Some?)
        else Rewritten(Join(lines[i := DATA_SPACE + marked]), true, kind.Some?)
  }

  /** An event is rewritten exactly when the account is a subscription, a response has started and
      the event reports overload; every other event passes through byte for byte. */
  lemma {:induction false} RewriteRule(codec: Codec, event: Text, subscription: bool, started: bool)
    ensures var r := Rewrite(codec, event, subscription, started);
            && r.injected == (subscription && started && IsOverload(codec, event))
            && r.response == IsResponse(codec, event)
            && (!r.injected ==> r.event == event)
  {
  }

  /** How the rewriter treats one raw event. */
  function Advice(codec: Codec, subscription: bool): Rewriting {
    (raw: Text, started: bool) => Rewrite(codec, codec.lossy(raw), subscription, started)
  }

  // ------------------------------------------------------------------ the rewriter

  /** One turn of the loop: the next event leaves the buffer and joins the output. */
  lemma {:induction false} DrainStep(rewrite: Rewriting, now: Drained) returns (next: Drained)
    requires FindEvent(now.buffer).Some?
    ensures var cut := FindEvent(now.buffer).value;
            var r := rewrite(now.buffer[..cut.end], now.seen > 0);
            next == Drained(now.buffer[cut.end + cut.delimiter..], Counted(r, now.seen),
                            now.output + r.event + LF_LF, now.injected || r.injected)
    ensures Then(next, Drain(rewrite, next.buffer, next.seen)) == Then(now, Drain(rewrite, now.buffer, now.seen))
  {
    var cut := FindEvent(now.buffer).value;
    var r := rewrite(now.buffer[..cut.end], now.seen > 0);
    next := Drained(now.buffer[cut.end + cut.delimiter..], Counted(r, now.seen),
                    now.output + r.event + LF_LF, now.injected || r.injected);
    var rest := Drain(rewrite, next.buffer, next.seen);
    assert now.output + (r.event + LF_LF + rest.output) == now.output + r.event + LF_LF + rest.output;
  }

  lemma {:induction false} DrainStop(rewrite: Rewriting, now: Drained)
    requires FindEvent(now.buffer).None?
    ensures Then(now, Drain(rewrite, now.buffer, now.seen)) == now
  {
    ThenNothing(now);
  }

  class Rewriter {
    var buffer: Text
    var responseEventsSeen: nat

    constructor ()
      ensures buffer == [] && responseEventsSeen == 0
    {
      buffer, responseEventsSeen := [], 0;
    }

    method Process(codec: Codec, chunk: Text, subscription: bool) returns (output: Text, injected: bool)
      modifies this
      ensures Drained(buffer, responseEventsSeen, output, injected)
           == Drain(Advice(codec, subscription), old(buffer) + chunk, old(responseEventsSeen))
    {
      ghost var rewrite := Advice(codec, subscription);
      buffer := buffer + chunk;
      output, injected := [], false;
      ghost var now := Drained(buffer, responseEventsSeen, output, injected);
      ghost var all := Drain(rewrite, buffer, responseEventsSeen);
      NothingThen(buffer, responseEventsSeen, all);
      while true
        invariant now == Drained(buffer, responseEventsSeen, output, injected)
        invariant all == Then(now, Drain(rewrite, now.buffer, now.seen))
        decreases |buffer|
      {
        var found := FindEvent(buffer);
        if found.None? {
          DrainStop(rewrite, now);
          break;
        }
        var cut := found.value;
        var raw := buffer[..cut.end];
        buffer := buffer[cut.end + cut.delimiter..];
        var r := Rewrite(codec, codec.lossy(raw), subscription, responseEventsSeen > 0);
        injected := injected || r.injected;
        if r.response {
          responseEventsSeen := responseEventsSeen + 1;
        }
        output := output + r.event;
        output := output + LF_LF;
        assert r == rewrite(now.buffer[..cut.end], now.seen > 0);
        now := DrainStep(rewrite, now);
      }
    }

    method Finish() returns (rest: Text)
      modifies this
      ensures rest == old(buffer) && buffer == [] && responseEventsSeen == old(responseEventsSeen)
    {
      rest := buffer;
      buffer := [];
    }
  }

  /** What the loop meets: whether it is told to stop while it waits for chunk i, by a timeout, a shutdown,
      an upstream error or a client that is gone, and whether the client takes what is sent for chunk i;
      the end of the stream comes after the last chunk. */
  datatype Link = Link(stops: nat -> bool, delivers: nat -> bool)

  datatype Exit = Complete | Stopped | ChunkUnsent | RestUnsent

  /** The forwarding loop: each chunk is processed as it arrives and its events are sent, and what is left
      is sent when the stream ends.  The advice is recorded before the send that can fail, so the record
      of every exit is that of the chunks processed, the last of which may not have been sent.  What the
      client is sent depends only on the bytes, and breaking off sends a prefix of it. */
  method Forward(codec: Codec, subscription: bool, chunks: seq<Text>, link: Link)
      returns (sent: Text, advised: bool, ghost taken: nat, exit: Exit)
    ensures Ends(Advice(codec, subscription), chunks, link, taken, exit, sent, advised)
    ensures sent <= Whole(Advice(codec, subscription), chunks)
  {
    ghost var rewrite := Advice(codec, subscription);
    var rewriter := new Rewriter();
    sent, advised, taken, exit := [], false, 0, Stopped;
    ghost var now := Drained([], 0, [], false);
    for i := 0 to |chunks|
      invariant now == Drained(rewriter.buffer, rewriter.responseEventsSeen, sent, advised)
      invariant Passed(rewrite, chunks, link, i, now)
    {
      taken := i;
      if link.stops(i) {
        EndsStopped(rewrite, chunks, link, i, now);
        return;
      }
      var output, injected := rewriter.Process(codec, chunks[i], subscription);
      ghost var step := Drained(rewriter.buffer, rewriter.responseEventsSeen, output, injected);
      ChunkTaken(rewrite, chunks, link, i, now, step);
      if injected {
        advised := true;
      }
      if output != [] && !link.delivers(i) {
        taken, exit := i + 1, ChunkUnsent;
        return;
      }
      sent := sent + output;
      now := Then(now, step);
    }
    taken := |chunks|;
    EndsStopped(rewrite, chunks, link, taken, now);
    if link.stops(|chunks|) {
      return;
    }
    var rest := rewriter.Finish();
    EndsWithRest(rewrite, chunks, link, now);
    if rest != [] && !link.delivers(|chunks|) {
      exit := RestUnsent;
      return;
    }
    sent, exit := sent + rest, Complete;
  }

  /** The first i chunks, drained. */
  function After(rewrite: Rewriting, chunks: seq<Text>, i: nat): Drained
    requires i <= |chunks|
  {
    Drain(rewrite, Flat(chunks[..i]), 0)
  }

  /** What chunk i adds to the output. */
  function Added(rewrite: Rewriting, chunks: seq<Text>, i: nat): Text
    requires i < |chunks|
  {
    var d := After(rewrite, chunks, i);
    Drain(rewrite, d.buffer + chunks[i], d.seen).output
  }

  predicate Passes(rewrite: Rewriting, chunks: seq<Text>, link: Link, i: nat)
    requires i < |chunks|
  {
    !link.stops(i) && (Added(rewrite, chunks, i) == [] || link.delivers(i))
  }

  /** All that a loop that does not break off sends. */
  function Whole(rewrite: Rewriting, chunks: seq<Text>): Text {
    var d := After(rewrite, chunks, |chunks|);
    d.output + d.buffer
  }

  /** Why the loop ends after taking `taken` chunks, what it has sent by then and what it has recorded. */
  predicate Ends(rewrite: Rewriting, chunks: seq<Text>, link: Link, taken: nat, exit: Exit, sent: Text, advised: bool) {
    && taken <= |chunks|
    && (forall j: nat :: j < taken && (exit == ChunkUnsent ==> j < taken - 1) ==> Passes(rewrite, chunks, link, j))
    && var d := After(rewrite, chunks, taken);
    && advised == d.injected
    && match exit
       case Stopped => link.stops(taken) && sent == d.output
       case ChunkUnsent =>
         && taken > 0 && !link.stops(taken - 1) && !link.delivers(taken - 1)
         && Added(rewrite, chunks, taken - 1) != []
         && sent == After(rewrite, chunks, taken - 1).output
       case RestUnsent =>
         && taken == |chunks| && !link.stops(taken) && !link.delivers(taken)
         && d.buffer != [] && sent == d.output
       case Complete =>
         && taken == |chunks| && !link.stops(taken) && (d.buffer == [] || link.delivers(taken))
         && sent == d.output + d.buffer
  }

  /** The loop has taken and sent the first i chunks. */
  predicate Passed(rewrite: Rewriting, chunks: seq<Text>, link: Link, i: nat, now: Drained) {
    && i <= |chunks| && now == After(rewrite, chunks, i)
    && forall j: nat :: j < i ==> Passes(rewrite, chunks, link, j)
  }

  lemma {:induction false} EndsStopped(rewrite: Rewriting, chunks: seq<Text>, link: Link, i: nat, now: Drained)
    requires Passed(rewrite, chunks, link, i, now)
    ensures link.stops(i) ==> Ends(rewrite, chunks, link, i, Stopped, now.output, now.injected)
    ensures now.output <= Whole(rewrite, chunks)
  {
    SentIsPrefix(rewrite, chunks, i);
  }

  lemma {:induction false} EndsWithRest(rewrite: Rewriting, chunks: seq<Text>, link: Link, now: Drained)
    requires Passed(rewrite, chunks, link, |chunks|, now) && !link.stops(|chunks|)
    ensures if now.buffer != [] && !link.delivers(|chunks|)
            then Ends(rewrite, chunks, link, |chunks|, RestUnsent, now.output, now.injected)
            else Ends(rewrite, chunks, link, |chunks|, Complete, now.output + now.buffer, now.injected)
    ensures now.output + now.buffer == Whole(rewrite, chunks)
  {
  }

  lemma {:induction false} ChunkTaken(rewrite: Rewriting, chunks: seq<Text>, link: Link, i: nat, now: Drained, step: Drained)
    requires Passed(rewrite, chunks, link, i, now) && i < |chunks| && !link.stops(i)
    requires step == Drain(rewrite, now.buffer + chunks[i], now.seen)
    ensures if step.output != [] && !link.delivers(i)
            then Ends(rewrite, chunks, link, i + 1, ChunkUnsent, now.output, now.injected || step.injected)
            else Passed(rewrite, chunks, link, i + 1, Then(now, step))
    ensures now.output <= Whole(rewrite, chunks)
  {
    AfterNext(rewrite, chunks, i);
    SentIsPrefix(rewrite, chunks, i);
  }

  lemma {:induction false} AfterNext(rewrite: Rewriting, chunks: seq<Text>, i: nat)
    requires i < |chunks|
    ensures var d := After(rewrite, chunks, i);
            After(rewrite, chunks, i + 1) == Then(d, Drain(rewrite, d.buffer + chunks[i], d.seen))
  {
    assert chunks[..i + 1] == chunks[..i] + [chunks[i]];
    FlatAppend(chunks[..i], chunks[i]);
    DrainAppend(rewrite, Flat(chunks[..i]), 0, chunks[i]);
  }

  lemma {:induction false} FlatSplit(chunks: seq<Text>, i: nat)
    requires i <= |chunks|
    ensures Flat(chunks) == Flat(chunks[..i]) + Flat(chunks[i..])
  {
    if i == 0 {
      assert chunks[0..] == chunks && [] + Flat(chunks) == Flat(chunks);
    } else {
      FlatSplit(chunks[1..], i - 1);
      assert chunks[..i][1..] == chunks[1..][..i - 1];
      assert chunks[1..][i - 1..] == chunks[i..];
    }
  }

  lemma {:induction false} SentIsPrefix(rewrite: Rewriting, chunks: seq<Text>, i: nat)
    requires i <= |chunks|
    ensures After(rewrite, chunks, i).output <= Whole(rewrite, chunks)
  {
    FlatSplit(chunks, i);
    assert chunks[..|chunks|] == chunks;
    DrainAppend(rewrite, Flat(chunks[..i]), 0, Flat(chunks[i..]));
  }

  // ------------------------------------------------------------------ what the client receives

  /** Event k of a stream is given advice exactly when the account is a subscription, the event
      reports overload, and an earlier event of the stream was a response event. */
  lemma {:induction false} AdviceRule(codec: Codec, subscription: bool, frames: seq<Frame>, k: nat)
    requires k < |frames|
    ensures var r := Rewrites(Advice(codec, subscription), frames, 0)[k];
            var event := codec.lossy(frames[k].event);
            && (r.injected <==> && subscription
                                && IsOverload(codec, event)
                                && exists j :: 0 <= j < k && IsResponse(codec, codec.lossy(frames[j].event)))
            && r.response == IsResponse(codec, event)
            && (!r.injected ==> r.event == event)
  {
    var rewrite := Advice(codec, subscription);
    var rs := Rewrites(rewrite, frames, 0);
    RewritesAt(rewrite, frames, 0, k);
    RewriteRule(codec, codec.lossy(frames[k].event), subscription, 0 + Responses(rs[..k]) > 0);
    ResponsesMeans(rs[..k]);
    forall j: nat | j < k ensures rs[..k][j].response == IsResponse(codec, codec.lossy(frames[j].event)) {
      RewritesAt(rewrite, frames, 0, j);
      RewriteRule(codec, codec.lossy(frames[j].event), subscription, 0 + Responses(rs[..j]) > 0);
    }
  }

  /** Advice is recorded for a stream exactly when the account is a subscription and some event
      reports overload after an earlier response event. */
  lemma {:induction false} AdviceRecorded(codec: Codec, subscription: bool, b: Text)
    ensures var frames := Frames(b);
            Drain(Advice(codec, subscription), b, 0).injected
            <==> exists k, j ::
              && 0 <= j < k < |frames|
              && subscription
              && IsOverload(codec, codec.lossy(frames[k].event))
              && IsResponse(codec, codec.lossy(frames[j].event))
  {
    var rewrite, frames := Advice(codec, subscription), Frames(b);
    var rs := Rewrites(rewrite, frames, 0);
    DrainedFrames(rewrite, b, 0);
    AnyInjectedMeans(rs);
    forall k: nat | k < |frames|
      ensures rs[k].injected <==> && subscription
                                  && IsOverload(codec, codec.lossy(frames[k].event))
                                  && exists j :: 0 <= j < k && IsResponse(codec, codec.lossy(frames[j].event))
    {
      AdviceRule(codec, subscription, frames, k);
    }
  }

  /** Valid UTF-8: decoding each event of the stream gives the event back. */
  ghost predicate Decodable(codec: Codec, frames: seq<Frame>) {
    forall f :: f in frames ==> codec.lossy(f.event) == f.event
  }

  /** A valid stream to which no advice is added reaches the client unchanged exactly when every
      delimiter in it is LF LF; each CR LF CR LF becomes LF LF. */
  lemma {:induction false} UnadvisedStream(codec: Codec, subscription: bool, b: Text)
    requires Decodable(codec, Frames(b))
    requires !Drain(Advice(codec, subscription), b, 0).injected
    ensures var d := Drain(Advice(codec, subscription), b, 0);
            d.output + d.buffer == b <==> forall f :: f in Frames(b) ==> f.delimiter == 2
  {
    var rewrite, frames := Advice(codec, subscription), Frames(b);
    var rs := Rewrites(rewrite, frames, 0);
    DrainedFrames(rewrite, b, 0);
    AnyInjectedMeans(rs);
    forall k: nat | k < |rs| ensures rs[k].event == frames[k].event {
      AdviceRule(codec, subscription, frames, k);
      assert frames[k] in frames;
    }
    PassedStream(rewrite, b);
  }

  // ------------------------------------------------------------------ what advice does to an event

  /** The text of lines that stand before, and after, another line. */
  function LinesBefore(lines: seq<Text>): Text {
    if lines == [] then [] else lines[0] + [LF] + LinesBefore(lines[1..])
  }

  function LinesAfter(lines: seq<Text>): Text {
    if lines == [] then [] else [LF] + lines[0] + LinesAfter(lines[1..])
  }

  lemma {:induction false} JoinFirst(lines: seq<Text>)
    requires lines != []
    ensures Join(lines) == lines[0] + LinesAfter(lines[1..])
  {
    if |lines| == 1 {
      assert lines[0] + [] == lines[0];
    } else {
      JoinFirst(lines[1..]);
      assert lines[0] + ([LF] + lines[1] + LinesAfter(lines[2..])) == lines[0] + [LF] + (lines[1] + LinesAfter(lines[2..]));
      assert lines[1..][1..] == lines[2..];
    }
  }

  /** Replacing line `i` and joining the lines replaces the bytes of that line and no others. */
  lemma {:induction false} JoinAround(lines: seq<Text>, i: nat, line: Text)
    requires i < |lines|
    ensures Join(lines[i := line]) == LinesBefore(lines[..i]) + line + LinesAfter(lines[i + 1..])
  {
    var ls := lines[i := line];
    if i == 0 {
      JoinFirst(ls);
      assert ls[1..] == lines[1..];
      assert [] + line == line;
    } else {
      JoinAround(lines[1..], i - 1, line);
      assert ls[1..] == lines[1..][i - 1 := line];
      assert lines[..i][1..] == lines[1..][..i - 1];
      assert lines[i + 1..] == lines[1..][i..];
      Splice(lines[0], LinesBefore(lines[..i][1..]), line, LinesAfter(lines[i + 1..]));
    }
  }

  lemma {:induction false} Splice(h: Text, p: Text, x: Text, q: Text)
    ensures h + [LF] + (p + x + q) == (h + [LF] + p) + x + q
  {
  }

  // ------------------------------------------------------------------ lines taken apart and joined

  lemma {:induction false} LinesHaveNoLf(t: Text)
    ensures forall line :: line in Lines(t) ==> LF !in line
    ensures t != [] ==> Lines(t) != []
    decreases |t|
  {
    if t != [] {
      var n := IndexOf(t, LF);
      if n == |t| {
        assert t[..n] == t;
      } else {
        LinesHaveNoLf(t[n + 1..]);
      }
    }
  }

  /** A CR LF somewhere in the text. */
  ghost predicate HasCrLf(t: Text) {
    exists j :: 0 <= j < |t| - 1 && t[j] == CR && t[j + 1] == LF
  }

  lemma {:induction false} JoinIsNoLonger(t: Text)
    ensures |Join(Lines(t))| <= |t|
    decreases |t|
  {
    if t != [] {
      var n := IndexOf(t, LF);
      if n < |t| {
        JoinIsNoLonger(t[n + 1..]);
        assert Lines(t)[1..] == Lines(t[n + 1..]);
      }
    }
  }

  ghost predicate JoinsBack(t: Text, lines: seq<Text>) {
    Join(lines) == t <==> !HasCrLf(t) && (t == [] || t[|t| - 1] != LF)
  }

  /** Joining the lines of a text gives it back exactly when no line ended in CR LF and the text does
      not end in LF. */
  lemma {:induction false} JoinLinesExactly(t: Text)
    ensures Join(Lines(t)) == t <==> !HasCrLf(t) && (t == [] || t[|t| - 1] != LF)
    decreases |t|
  {
    if t != [] {
      var n := IndexOf(t, LF);
      if n == |t| {
        assert t[..n] == t;
      } else {
        JoinHead(t, n);
      }
    }
  }

  lemma {:induction false} JoinHead(t: Text, n: nat)
    requires n < |t| && n == IndexOf(t, LF)
    ensures JoinsBack(t, Lines(t))
    decreases |t|, 0
  {
    var h, u := t[..n], t[n + 1..];
    JoinIsNoLonger(u);
    JoinLinesExactly(u);
    LinesCons(t, n);
    CutAtLf(t, n);
    JoinedParts(t, h, u, Lines(u));
  }

  lemma {:induction false} JoinedParts(t: Text, h: Text, u: Text, us: seq<Text>)
    requires t == h + [LF] + u && LF !in h
    requires (u == [] <==> us == []) && |Join(us)| <= |u|
    requires JoinsBack(u, us)
    ensures JoinsBack(t, [Chomp(h)] + us)
  {
    CrLfParts(t, h, u);
    HeadJoined(h, u, us);
    assert u != [] ==> t[|t| - 1] == u[|u| - 1];
  }

  lemma {:induction false} CutAtLf(t: Text, n: nat)
    requires n < |t| && n == IndexOf(t, LF)
    ensures t == t[..n] + [LF] + t[n + 1..] && LF !in t[..n]
  {
  }

  lemma {:induction false} LinesCons(t: Text, n: nat)
    requires n < |t| && n == IndexOf(t, LF)
    ensures Lines(t) == [Chomp(t[..n])] + Lines(t[n + 1..])
    ensures t[n + 1..] == [] <==> Lines(t[n + 1..]) == []
  {
    LinesHaveNoLf(t[n + 1..]);
  }

  lemma {:induction false} HeadJoined(h: Text, u: Text, us: seq<Text>)
    requires u == [] <==> us == []
    requires |Join(us)| <= |u|
    ensures Join([Chomp(h)] + us) == h + [LF] + u <==> Chomp(h) == h && u != [] && Join(us) == u
  {
    var whole := Join([Chomp(h)] + us);
    assert ([Chomp(h)] + us)[1..] == us;
    if Chomp(h) == h && u != [] {
      assert whole == h + [LF] + Join(us);
      assert whole[|h| + 1..] == Join(us) && (h + [LF] + u)[|h| + 1..] == u;
    } else {
      assert |whole| < |h + [LF] + u|;
    }
  }

  lemma {:induction false} CrLfParts(t: Text, h: Text, u: Text)
    requires t == h + [LF] + u && LF !in h
    ensures HasCrLf(t) <==> Chomp(h) != h || HasCrLf(u)
  {
    var n := |h|;
    assert Chomp(h) != h ==> t[n - 1] == CR && t[n] == LF;
    if j :| 0 <= j < |u| - 1 && u[j] == CR && u[j + 1] == LF {
      assert t[n + 1 + j] == CR && t[n + 1 + j + 1] == LF;
    }
    if j :| 0 <= j < |t| - 1 && t[j] == CR && t[j + 1] == LF {
      if j > n {
        assert u[j - n - 1] == CR && u[j - n] == LF;
      }
    }
  }

  predicate EndsInCr(line: Text) {
    line != [] && line[|line| - 1] == CR
  }

  /** Joined, the lines make no delimiter: no line after the first is empty, and none is a lone CR after
      a line that ends in CR. */
  ghost predicate Joinable(lines: seq<Text>) {
    forall k :: 1 <= k < |lines| ==> lines[k] != [] && !(lines[k] == [CR] && EndsInCr(lines[k - 1]))
  }

  lemma {:induction false} Shifted(p: Text, r: Text, n: nat)
    ensures Clear(p + r, |p|, |p| + n) <==> Clear(r, 0, n)
  {
    forall j: nat ensures Delimited(p + r, |p| + j) == Delimited(r, j) {
    }
    if Clear(r, 0, n) {
      forall j | |p| <= j < |p| + n ensures !Delimited(p + r, j) {
        assert !Delimited(r, j - |p|);
        assert Delimited(p + r, |p| + (j - |p|)) == Delimited(r, j - |p|);
      }
    }
  }

  /** Where the first line ends a delimiter starts exactly when the next line is empty, or is a lone CR
      while the first ends in CR. */
  lemma {:induction false} FirstJoint(h: Text, line: Text, rest: Text)
    requires LF !in h && LF !in line
    requires |rest| > |line| && rest[..|line|] == line && rest[|line|] == LF
    ensures Clear(h + [LF] + rest, 0, |h| + 1) <==> line != [] && !(line == [CR] && EndsInCr(h))
  {
    var b, n := h + [LF] + rest, |h|;
    assert forall j :: 0 <= j < |line| ==> rest[j] == line[j] && rest[j] in line;
    forall j: nat | j < n - 1 ensures !Delimited(b, j) {
      assert b[j + 1] == h[j + 1] && h[j + 1] in h;
    }
    if n > 0 {
      assert b[n - 1] == h[n - 1] && h[n - 1] in h && b[n] == LF;
      assert Delimited(b, n - 1) <==> EndsInCr(h) && line == [CR];
    }
    assert b[n + 1] == rest[0];
    assert Delimited(b, n) <==> line == [];
  }

  lemma {:induction false} JoinStarts(lines: seq<Text>)
    requires lines != []
    ensures var rest := Join(lines) + LF_LF;
            |rest| > |lines[0]| && rest[..|lines[0]|] == lines[0] && rest[|lines[0]|] == LF
  {
    JoinFirst(lines);
    var after := LinesAfter(lines[1..]);
    assert after != [] ==> after[0] == LF;
    assert Join(lines) + LF_LF == lines[0] + (after + LF_LF);
  }

  lemma {:induction false} JoinedClear(lines: seq<Text>)
    requires lines != [] && forall line :: line in lines ==> LF !in line
    ensures Clear(Join(lines) + LF_LF, 0, |Join(lines)|) <==> Joinable(lines)
  {
    var h := lines[0];
    assert h in lines;
    if |lines| == 1 {
      forall j: nat | j < |h| ensures !Delimited(h + LF_LF, j) {
        assert (h + LF_LF)[j] == h[j] && h[j] in h;
        assert j + 1 < |h| ==> (h + LF_LF)[j + 1] in h;
      }
    } else {
      var tail := lines[1..];
      var rest := Join(tail) + LF_LF;
      assert tail[0] in lines && forall line :: line in tail ==> line in lines;
      JoinedClear(tail);
      JoinStarts(tail);
      FirstJoint(h, tail[0], rest);
      Shifted(h + [LF], rest, |Join(tail)|);
      assert Join(lines) + LF_LF == (h + [LF]) + rest;
      ClearParts((h + [LF]) + rest, |h| + 1, |Join(lines)|);
      JoinableParts(lines);
    }
  }

  lemma {:induction false} ClearParts(b: Text, n: nat, m: nat)
    requires n <= m
    ensures Clear(b, 0, m) <==> Clear(b, 0, n) && Clear(b, n, m)
  {
  }

  lemma {:induction false} JoinableParts(lines: seq<Text>)
    requires |lines| > 1
    ensures Joinable(lines) <==> lines[1] != [] && !(lines[1] == [CR] && EndsInCr(lines[0])) && Joinable(lines[1..])
  {
    var tail := lines[1..];
    if lines[1] != [] && !(lines[1] == [CR] && EndsInCr(lines[0])) && Joinable(tail) {
      forall k | 1 <= k < |lines| ensures lines[k] != [] && !(lines[k] == [CR] && EndsInCr(lines[k - 1])) {
        assert k > 1 ==> tail[k - 1] == lines[k] && tail[k - 2] == lines[k - 1];
      }
    }
    if Joinable(lines) {
      forall k | 1 <= k < |tail| ensures tail[k] != [] && !(tail[k] == [CR] && EndsInCr(tail[k - 1])) {
        assert tail[k] == lines[k + 1] && tail[k - 1] == lines[k];
      }
    }
  }

  /** Joined lines are read back as one event exactly when they are joinable. */
  lemma {:induction false} JoinedIsFramed(lines: seq<Text>)
    requires lines != [] && forall line :: line in lines ==> LF !in line
    ensures Framed(Join(lines)) <==> Joinable(lines)
  {
    FramedMeans(Join(lines));
    JoinedClear(lines);
  }

  /** The header text holds no line end, as JSON printed on one line does not. */
  ghost predicate OneLine(codec: Codec, event: Text) {
    var p := PayloadOf(codec, event);
    p.Json? ==> LF !in p.marked && CR !in p.marked
  }

  lemma {:induction false} MarkedLine(codec: Codec, event: Text)
    requires IsOverload(codec, event) && OneLine(codec, event)
    ensures var lines, line := Lines(event), DATA_SPACE + PayloadOf(codec, event).marked;
            && event != []
            && DataLine(lines) < |lines|
            && Rewrite(codec, event, true, true).event == Join(lines[DataLine(lines) := line])
            && LF !in line && CR !in line
  {
  }

  /** After the first line no line is empty, and none is a lone CR after a line that ends in CR, line `i`
      aside, which is replaced. */
  ghost predicate WholeBut(lines: seq<Text>, i: nat) {
    forall k :: 1 <= k < |lines| ==> lines[k] != [] && !(lines[k] == [CR] && EndsInCr(lines[k - 1]) && k - 1 != i)
  }

  /** An overload event can be advised and still be one event. */
  ghost predicate StaysWhole(event: Text) {
    WholeBut(Lines(event), DataLine(Lines(event)))
  }

  /** Advice replaces the data line and joins the lines; the other lines are kept. The other bytes are
      kept exactly when no line of the event ended in CR LF and it did not end in LF. The advised event is
      read back as one event exactly when it stays whole. */
  lemma {:induction false} AdviceIsLocal(codec: Codec, event: Text)
    requires IsOverload(codec, event) && OneLine(codec, event)
    ensures var lines, i := Lines(event), DataLine(Lines(event));
            var r := Rewrite(codec, event, true, true);
            && i < |lines|
            && r.event == LinesBefore(lines[..i]) + (DATA + [32] + PayloadOf(codec, event).marked) + LinesAfter(lines[i + 1..])
            && (event == LinesBefore(lines[..i]) + lines[i] + LinesAfter(lines[i + 1..])
                <==> !HasCrLf(event) && event[|event| - 1] != LF)
            && (Framed(r.event) <==> StaysWhole(event))
  {
    var line := DATA_SPACE + PayloadOf(codec, event).marked;
    MarkedLine(codec, event);
    ReplacedLine(event, Lines(event), DataLine(Lines(event)), line);
  }

  lemma {:induction false} ReplacedLine(event: Text, lines: seq<Text>, i: nat, line: Text)
    requires event != [] && lines == Lines(event) && i < |lines| && IsData(lines[i])
    requires line != [] && LF !in line && CR !in line
    ensures Join(lines[i := line]) == LinesBefore(lines[..i]) + line + LinesAfter(lines[i + 1..])
    ensures event == LinesBefore(lines[..i]) + lines[i] + LinesAfter(lines[i + 1..]) <==> !HasCrLf(event) && event[|event| - 1] != LF
    ensures Framed(Join(lines[i := line])) <==> WholeBut(lines, i)
  {
    JoinAround(lines, i, line);
    JoinAround(lines, i, lines[i]);
    assert lines[i := lines[i]] == lines;
    JoinLinesExactly(event);
    LinesHaveNoLf(event);
    ReplacedIsFramed(lines, i, line);
  }

  lemma {:induction false} ReplacedIsFramed(lines: seq<Text>, i: nat, line: Text)
    requires i < |lines| && (forall l :: l in lines ==> LF !in l) && lines[i] != [] && lines[i] != [CR]
    requires line != [] && LF !in line && CR !in line
    ensures Framed(Join(lines[i := line])) <==> WholeBut(lines, i)
  {
    var ls := lines[i := line];
    forall l | l in ls ensures LF !in l {
      assert l == line || l in lines;
    }
    JoinedIsFramed(ls);
    assert !EndsInCr(line) && line != [CR];
    assert forall k :: 0 <= k < |lines| && k != i ==> ls[k] == lines[k];
  }

  /** Whether event k of a stream is given advice. */
  ghost predicate Advised(codec: Codec, subscription: bool, frames: seq<Frame>, k: nat)
    requires k < |frames|
  {
    && subscription
    && IsOverload(codec, codec.lossy(frames[k].event))
    && exists j :: 0 <= j < k && IsResponse(codec, codec.lossy(frames[j].event))
  }

  /** Event k of a stream is put out so that it is read back as one event. */
  ghost predicate SentWhole(codec: Codec, subscription: bool, frames: seq<Frame>, k: nat)
    requires k < |frames|
  {
    var event := codec.lossy(frames[k].event);
    if Advised(codec, subscription, frames, k) then StaysWhole(event) else Framed(event)
  }

  /** The JSON printer writes no line end. */
  ghost predicate OneLineJson(codec: Codec) {
    forall event :: OneLine(codec, event)
  }

  /** The client of a rewritten stream reads exactly one event for each event of the original stream, the
      rewritten ones, in order, and the same bytes after the last one, exactly when every event is sent
      whole: a test on the lines of each advised event, and on the end of every other. */
  lemma {:induction false} ClientReadsEveryEvent(codec: Codec, subscription: bool, b: Text)
    requires OneLineJson(codec)
    ensures ReadsBack(Advice(codec, subscription), b)
            <==> forall k: nat :: k < |Frames(b)| ==> SentWhole(codec, subscription, Frames(b), k)
  {
    var rewrite, frames := Advice(codec, subscription), Frames(b);
    var rs := Rewrites(rewrite, frames, 0);
    OutputReadsBack(rewrite, b);
    forall k: nat | k < |rs| ensures Framed(rs[k].event) <==> SentWhole(codec, subscription, frames, k) {
      AdvisedFrame(codec, subscription, frames, k);
    }
    if forall r :: r in rs ==> Framed(r.event) {
      forall k: nat | k < |frames| ensures SentWhole(codec, subscription, frames, k) {
        assert rs[k] in rs;
      }
    }
  }

  lemma {:induction false} AdvisedFrame(codec: Codec, subscription: bool, frames: seq<Frame>, k: nat)
    requires OneLineJson(codec) && k < |frames|
    ensures Framed(Rewrites(Advice(codec, subscription), frames, 0)[k].event) <==> SentWhole(codec, subscription, frames, k)
  {
    var rewrite, event := Advice(codec, subscription), codec.lossy(frames[k].event);
    var rs := Rewrites(rewrite, frames, 0);
    AdviceRule(codec, subscription, frames, k);
    if rs[k].injected {
      RewritesAt(rewrite, frames, 0, k);
      RewriteRule(codec, event, subscription, 0 + Responses(rs[..k]) > 0);
      assert OneLine(codec, event);
      AdviceIsLocal(codec, event);
    }
  }

  /** For an event of valid UTF-8 that is given no advice, being sent whole is a test of its last bytes. */
  lemma {:induction false} UnadvisedSentWhole(codec: Codec, subscription: bool, b: Text, k: nat)
    requires k < |Frames(b)| && codec.lossy(Frames(b)[k].event) == Frames(b)[k].event
    requires !Advised(codec, subscription, Frames(b), k)
    ensures SentWhole(codec, subscription, Frames(b), k) <==> EndsWell(Frames(b)[k].event)
  {
    assert Frames(b)[k] in Frames(b);
    FramesAreClear(b);
    FramedExactly(Frames(b)[k].event);
  }

  // ------------------------------------------------------------------ a stream that is misread

  /** An event with mixed line ends: a data line, then a line ended by CR LF that is empty, then another. */
  function MixedEvent(data: Text): Text {
    DATA + data + [LF, CR, LF, 121]
  }

  /** The event is one event as it arrives; advised, it is two: its empty line becomes LF LF. */
  lemma {:induction false} MixedEventSplits(codec: Codec, data: Text)
    requires CR !in data && LF !in data
    requires IsOverload(codec, MixedEvent(data)) && OneLine(codec, MixedEvent(data))
    ensures Framed(MixedEvent(data)) && !Framed(Rewrite(codec, MixedEvent(data), true, true).event)
  {
    MixedIsFramed(data);
    MixedLines(data);
    AdviceIsLocal(codec, MixedEvent(data));
    assert Lines(MixedEvent(data))[1] == [];
  }

  lemma {:induction false} MixedIsFramed(data: Text)
    requires CR !in data && LF !in data
    ensures Framed(MixedEvent(data))
  {
    var raw: seq<Text> := [DATA + data, [CR], [121]];
    assert [[CR], [121]][1..] == [[121]];
    assert Join([[CR], [121]]) == [CR, LF, 121];
    assert raw[1..] == [[CR], [121]];
    assert Join(raw) == MixedEvent(data);
    JoinedIsFramed(raw);
  }

  lemma {:induction false} MixedLines(data: Text)
    requires CR !in data && LF !in data
    ensures Lines(MixedEvent(data)) == [DATA + data, [], [121]]
  {
    var event, head := MixedEvent(data), DATA + data;
    LfAt(head, [CR, LF, 121]);
    assert event == head + [LF] + [CR, LF, 121];
    assert event[..|head|] == head && event[|head| + 1..] == [CR, LF, 121];
    var two: Text := [CR, LF, 121];
    LfAt([CR], [121]);
    assert two == [CR] + [LF] + [121];
    assert two[..1] == [CR] && two[2..] == [121];
    var one: Text := [121];
    assert one[1..] == [];
    assert IndexOf(one, LF) == 1;
    assert Lines(one) == [one];
    assert Lines(two) == [[]] + [one];
  }

  lemma {:induction false} LfAt(h: Text, u: Text)
    requires LF !in h
    ensures IndexOf(h + [LF] + u, LF) == |h|
  {
    var t := h + [LF] + u;
    var n := IndexOf(t, LF);
    assert t[|h|] == LF;
    assert forall j :: 0 <= j < |h| ==> t[j] == h[j] && h[j] in h;
  }

  /** So a stream of a response event and such an overload event, both well framed and of valid UTF-8, is
      not read as two events by a client of a subscription account. */
  lemma {:induction false} MixedStreamIsMisread(codec: Codec, first: Text, data: Text)
    requires OneLineJson(codec) && CR !in data && LF !in data
    requires Framed(first) && codec.lossy(first) == first && IsResponse(codec, first)
    requires codec.lossy(MixedEvent(data)) == MixedEvent(data) && IsOverload(codec, MixedEvent(data))
    ensures var b := first + LF_LF + (MixedEvent(data) + LF_LF);
            && Frames(b) == [Frame(first, 2), Frame(MixedEvent(data), 2)]
            && !ReadsBack(Advice(codec, true), b)
  {
    var b := first + LF_LF + (MixedEvent(data) + LF_LF);
    MixedIsFramed(data);
    TwoFrames(first, MixedEvent(data));
    MixedIsNotWhole(codec, Frames(b), data);
    ClientReadsEveryEvent(codec, true, b);
  }

  lemma {:induction false} MixedIsNotWhole(codec: Codec, frames: seq<Frame>, data: Text)
    requires OneLineJson(codec) && CR !in data && LF !in data
    requires |frames| == 2 && IsResponse(codec, codec.lossy(frames[0].event))
    requires codec.lossy(frames[1].event) == MixedEvent(data) && IsOverload(codec, MixedEvent(data))
    ensures !SentWhole(codec, true, frames, 1)
  {
    assert OneLine(codec, MixedEvent(data));
    MixedEventSplits(codec, data);
    AdviceIsLocal(codec, MixedEvent(data));
    assert Advised(codec, true, frames, 1);
  }

  /** The bytes of a text of printable ASCII; any other character stands as a question mark. */
  function Ascii(s: string): (t: Text)
    ensures |t| == |s| && CR !in t && LF !in t
  {
    seq(|s|, i requires 0 <= i < |s| => AsciiByte(s[i]))
  }

  function AsciiByte(c: char): byte {
    if ' ' <= c <= '~' then c as int else 63
  }

  const START_JSON := "{\"type\":\"response.created\"}"
  const OVERLOAD_JSON := "{\"type\":\"error\",\"error\":{\"code\":\"server_is_overloaded\"}}"
  const MARKED_JSON := "{\"error\":{\"code\":\"server_is_overloaded\",\"headers\":{\"Retry-After\":\"0\"}},\"type\":\"error\"}"

  /** A codec that knows two texts, the start of a response and an overload report, and marks the report. */
  function TwoPayloads(start: Text, report: Text, marked: Text): Codec {
    Codec((t: Text) => t,
          (t: Text) => if t == start then Json(Some("response.created"), None, [])
                       else if t == report then Json(Some("error"), Some("server_is_overloaded"), marked)
                       else Malformed)
  }

  /** An instance of it: the start of a response, and the overload report over two lines. */
  lemma {:induction false} MisreadStream()
    ensures var start, report := Ascii(START_JSON), Ascii(OVERLOAD_JSON);
            !ReadsBack(Advice(TwoPayloads(start, report, Ascii(MARKED_JSON)), true),
                       DATA + start + LF_LF + (MixedEvent(report) + LF_LF))
  {
    assert |START_JSON| != |OVERLOAD_JSON|;
    MisreadPayloads(Ascii(START_JSON), Ascii(OVERLOAD_JSON), Ascii(MARKED_JSON));
  }

  lemma {:induction false} MisreadPayloads(start: Text, report: Text, marked: Text)
    requires start != report && LF !in start && CR !in report && LF !in report && CR !in marked && LF !in marked
    ensures !ReadsBack(Advice(TwoPayloads(start, report, marked), true),
                       DATA + start + LF_LF + (MixedEvent(report) + LF_LF))
  {
    MisreadTexts(TwoPayloads(start, report, marked), start, report);
  }

  lemma {:induction false} MisreadTexts(codec: Codec, start: Text, data: Text)
    requires OneLineJson(codec) && CR !in data && LF !in data && LF !in start
    requires codec.lossy(DATA + start) == DATA + start && codec.lossy(MixedEvent(data)) == MixedEvent(data)
    requires codec.parse(start).Json? && codec.parse(start).kind.Some?
    requires var p := codec.parse(data);
             p.Json? && p.kind == Some("error") && p.code == Some("server_is_overloaded")
    ensures !ReadsBack(Advice(codec, true), DATA + start + LF_LF + (MixedEvent(data) + LF_LF))
  {
    var first := DATA + start;
    OneLineEvent(first);
    MixedLines(data);
    assert (DATA + data)[|DATA|..] == data && first[|DATA|..] == start;
    JoinedIsFramed([first]);
    MixedStreamIsMisread(codec, first, data);
  }

  lemma {:induction false} OneLineEvent(t: Text)
    requires t != [] && LF !in t
    ensures Lines(t) == [t]
  {
    assert t[..IndexOf(t, LF)] <= t;
  }

  lemma {:induction false} TwoFrames(first: Text, second: Text)
    requires Framed(first) && Framed(second)
    ensures Frames(first + LF_LF + (second + LF_LF)) == [Frame(first, 2), Frame(second, 2)]
  {
    var rs := [Rewritten(first, false, true), Rewritten(second, false, true)];
    assert rs[1..] == [rs[1]] && rs[1..][1..] == [];
    assert Ended(rs[1..]) == second + LF_LF;
    assert Ended(rs) + [] == first + LF_LF + (second + LF_LF);
    EndedReadsBack(rs, []);
    assert LfFrames(rs[1..]) == [Frame(second, 2)];
  }
}

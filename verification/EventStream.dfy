/** Cutting a byte stream into server-sent events and putting out each event rewritten: what a
    buffer drains to, that chunk boundaries do not matter, and what a client reads back. */
module EventStream {
  import opened Wrappers

  type byte = x: int | 0 <= x < 256
  type Text = seq<byte>

  const CR: byte := 13
  const LF: byte := 10
  const LF_LF: Text := [LF, LF]

  // ------------------------------------------------------------------ cutting bytes into events

  datatype Cut = Cut(end: nat, delimiter: nat)

  /** A delimiter of `d` bytes starts at `i`. */
  predicate CutAt(b: Text, i: nat, d: nat) {
    || (d == 2 && i + 2 <= |b| && b[i] == LF && b[i + 1] == LF)
    || (d == 4 && i + 4 <= |b| && b[i] == CR && b[i + 1] == LF && b[i + 2] == CR && b[i + 3] == LF)
  }

  predicate Delimited(b: Text, i: nat) {
    CutAt(b, i, 2) || CutAt(b, i, 4)
  }

  /** No delimiter starts in `from..to`. */
  ghost predicate Clear(b: Text, from: nat, to: nat) {
    forall j :: from <= j < to ==> !Delimited(b, j)
  }

  function FindFrom(b: Text, i: nat): (r: Option<Cut>)
    ensures r.Some? ==> r.value.end + r.value.delimiter <= |b| && r.value.delimiter in {2, 4}
    decreases |b| - i
  {
    if i + 2 > |b| then None
    else if b[i] == LF && b[i + 1] == LF then Some(Cut(i, 2))
    else if b[i] == CR && b[i + 1] == LF && i + 4 <= |b| && b[i + 2] == CR && b[i + 3] == LF then Some(Cut(i, 4))
    else FindFrom(b, i + 1)
  }

  /** `find_sse_event`. */
  function FindEvent(b: Text): (r: Option<Cut>)
    ensures r.Some? ==> r.value.end + r.value.delimiter <= |b| && r.value.delimiter in {2, 4}
  {
    FindFrom(b, 0)
  }

  lemma {:induction false} FindFromIsFirst(b: Text, i: nat, cut: Cut)
    ensures FindFrom(b, i) == None <==> Clear(b, i, |b|)
    ensures FindFrom(b, i) == Some(cut) <==> i <= cut.end && CutAt(b, cut.end, cut.delimiter) && Clear(b, i, cut.end)
    decreases |b| - i
  {
    if i + 2 <= |b| && !Delimited(b, i) {
      FindFromIsFirst(b, i + 1, cut);
      assert Clear(b, i, |b|) <==> Clear(b, i + 1, |b|);
      assert i < cut.end ==> (Clear(b, i, cut.end) <==> Clear(b, i + 1, cut.end));
    }
  }

  /** The search finds the first delimiter of either kind, and finds none exactly when there is
      none. */
  lemma {:induction false} FindEventIsFirst(b: Text, cut: Cut)
    ensures FindEvent(b) == None <==> Clear(b, 0, |b|)
    ensures FindEvent(b) == Some(cut) <==> CutAt(b, cut.end, cut.delimiter) && Clear(b, 0, cut.end)
  {
    FindFromIsFirst(b, 0, cut);
  }

  /** A cut found in a buffer stays the first cut however the buffer is continued: a delimiter
      that the end of the buffer has split in two cannot come before a complete one. */
  lemma {:induction false} CutIsStable(b: Text, more: Text)
    requires FindEvent(b).Some?
    ensures FindEvent(b + more) == FindEvent(b)
  {
    var cut := FindEvent(b).value;
    FindEventIsFirst(b, cut);
    FindEventIsFirst(b + more, cut);
    forall j: nat | j < cut.end ensures !Delimited(b + more, j) {
      assert !Delimited(b, j);
    }
  }

  // ------------------------------------------------------------------ draining a buffer

  datatype Rewritten = Rewritten(event: Text, injected: bool, response: bool)

  /** How one raw event is rewritten, given whether a response event came before it. */
  type Rewriting = (Text, bool) -> Rewritten

  /** What is left in the buffer, how many response events were seen, and what was put out. */
  datatype Drained = Drained(buffer: Text, seen: nat, output: Text, injected: bool)

  function Drain(rewrite: Rewriting, b: Text, seen: nat): Drained
    decreases |b|
  {
    match FindEvent(b)
    case None => Drained(b, seen, [], false)
    case Some(cut) =>
      var r := rewrite(b[..cut.end], seen > 0);
      EventThen(r, Drain(rewrite, b[cut.end + cut.delimiter..], Counted(r, seen)))
  }

  function Counted(r: Rewritten, seen: nat): nat {
    if r.response then seen + 1 else seen
  }

  /** One rewritten event, then what the rest drained to. */
  function EventThen(r: Rewritten, rest: Drained): Drained {
    rest.(output := r.event + LF_LF + rest.output, injected := r.injected || rest.injected)
  }

  /** First `d`, then `e` from where `d` stopped. */
  function Then(d: Drained, e: Drained): Drained {
    Drained(e.buffer, e.seen, d.output + e.output, d.injected || e.injected)
  }

  lemma {:induction false} EventThenThen(r: Rewritten, d: Drained, e: Drained)
    ensures EventThen(r, Then(d, e)) == Then(EventThen(r, d), e)
  {
    assert r.event + LF_LF + (d.output + e.output) == r.event + LF_LF + d.output + e.output;
  }

  lemma {:induction false} NothingThen(b: Text, seen: nat, e: Drained)
    ensures Then(Drained(b, seen, [], false), e) == e
  {
    assert [] + e.output == e.output;
  }

  lemma {:induction false} ThenNothing(d: Drained)
    ensures Then(d, Drained(d.buffer, d.seen, [], false)) == d
  {
    assert d.output + [] == d.output;
  }

  /** Draining stops only when no event is left. */
  lemma {:induction false} DrainLeavesNoEvent(rewrite: Rewriting, b: Text, seen: nat)
    ensures FindEvent(Drain(rewrite, b, seen).buffer).None?
    decreases |b|
  {
    match FindEvent(b)
    case None =>
    case Some(cut) =>
      DrainLeavesNoEvent(rewrite, b[cut.end + cut.delimiter..], Counted(rewrite(b[..cut.end], seen > 0), seen));
  }

  /** Draining early changes nothing: what is drained now, then with the next chunk, is what
      would have been drained from both at once. */
  lemma {:induction false} DrainAppend(rewrite: Rewriting, b: Text, seen: nat, more: Text)
    ensures var d := Drain(rewrite, b, seen);
            Drain(rewrite, b + more, seen) == Then(d, Drain(rewrite, d.buffer + more, d.seen))
    decreases |b|
  {
    match FindEvent(b)
    case None =>
      NothingThen(b, seen, Drain(rewrite, b + more, seen));
    case Some(cut) =>
      CutIsStable(b, more);
      var after := b[cut.end + cut.delimiter..];
      assert (b + more)[cut.end + cut.delimiter..] == after + more;
      assert (b + more)[..cut.end] == b[..cut.end];
      var r := rewrite(b[..cut.end], seen > 0);
      DrainAppend(rewrite, after, Counted(r, seen), more);
      var rest := Drain(rewrite, after, Counted(r, seen));
      EventThenThen(r, rest, Drain(rewrite, rest.buffer + more, rest.seen));
  }

  // ------------------------------------------------------------------ chunks

  function Flat(chunks: seq<Text>): Text {
    if chunks == [] then [] else chunks[0] + Flat(chunks[1..])
  }

  lemma {:induction false} FlatAppend(chunks: seq<Text>, c: Text)
    ensures Flat(chunks + [c]) == Flat(chunks) + c
  {
    if chunks != [] {
      assert (chunks + [c])[1..] == chunks[1..] + [c];
      FlatAppend(chunks[1..], c);
    } else {
      assert (chunks + [c])[1..] == [];
    }
  }

  /** What a stream of chunks becomes when each is drained as it arrives. */
  function Chunked(rewrite: Rewriting, b: Text, seen: nat, chunks: seq<Text>): Drained
    decreases |chunks|
  {
    if chunks == [] then Drained(b, seen, [], false)
    else
      var d := Drain(rewrite, b + chunks[0], seen);
      Then(d, Chunked(rewrite, d.buffer, d.seen, chunks[1..]))
  }

  lemma {:induction false} ChunkedIsDrained(rewrite: Rewriting, b: Text, seen: nat, chunks: seq<Text>)
    requires FindEvent(b).None?
    ensures Chunked(rewrite, b, seen, chunks) == Drain(rewrite, b + Flat(chunks), seen)
    decreases |chunks|
  {
    if chunks == [] {
      assert b + Flat(chunks) == b;
    } else {
      var first, rest := b + chunks[0], Flat(chunks[1..]);
      var d := Drain(rewrite, first, seen);
      DrainLeavesNoEvent(rewrite, first, seen);
      ChunkedIsDrained(rewrite, d.buffer, d.seen, chunks[1..]);
      DrainAppend(rewrite, first, seen, rest);
      Associate(b, chunks[0], rest);
    }
  }

  lemma {:induction false} Associate(x: Text, y: Text, z: Text)
    ensures x + (y + z) == (x + y) + z
  {
  }

  /** Any two ways of cutting one stream into chunks give the client the same bytes, the same
      count of response events and the same record of whether advice was added. */
  lemma {:induction false} ChunkIndependence(rewrite: Rewriting, xs: seq<Text>, ys: seq<Text>)
    requires Flat(xs) == Flat(ys)
    ensures Chunked(rewrite, [], 0, xs) == Chunked(rewrite, [], 0, ys)
  {
    ChunkedIsDrained(rewrite, [], 0, xs);
    ChunkedIsDrained(rewrite, [], 0, ys);
  }

  // ------------------------------------------------------------------ what a stream says

  /** One event as it arrived and the length of the delimiter that ended it. */
  datatype Frame = Frame(event: Text, delimiter: nat)

  function Frames(b: Text): seq<Frame>
    decreases |b|
  {
    match FindEvent(b)
    case None => []
    case Some(cut) => [Frame(b[..cut.end], cut.delimiter)] + Frames(b[cut.end + cut.delimiter..])
  }

  function Tail(b: Text): Text
    decreases |b|
  {
    match FindEvent(b)
    case None => b
    case Some(cut) => Tail(b[cut.end + cut.delimiter..])
  }

  /** The rewritten events of a stream of frames, one by one. */
  function Rewrites(rewrite: Rewriting, frames: seq<Frame>, seen: nat): (rs: seq<Rewritten>)
    ensures |rs| == |frames|
  {
    if frames == [] then []
    else
      var r := rewrite(frames[0].event, seen > 0);
      [r] + Rewrites(rewrite, frames[1..], Counted(r, seen))
  }

  function Responses(rs: seq<Rewritten>): nat {
    if rs == [] then 0 else (if rs[0].response then 1 else 0) + Responses(rs[1..])
  }

  function Ended(rs: seq<Rewritten>): Text {
    if rs == [] then [] else rs[0].event + LF_LF + Ended(rs[1..])
  }

  predicate AnyInjected(rs: seq<Rewritten>) {
    rs != [] && (rs[0].injected || AnyInjected(rs[1..]))
  }

  /** A drained buffer is its frames rewritten in order, each ended by LF LF, and its tail. */
  lemma {:induction false} DrainedFrames(rewrite: Rewriting, b: Text, seen: nat)
    ensures var rs := Rewrites(rewrite, Frames(b), seen);
            Drain(rewrite, b, seen) == Drained(Tail(b), seen + Responses(rs), Ended(rs), AnyInjected(rs))
    decreases |b|
  {
    match FindEvent(b)
    case None =>
    case Some(cut) =>
      var r := rewrite(b[..cut.end], seen > 0);
      var after := b[cut.end + cut.delimiter..];
      DrainedFrames(rewrite, after, Counted(r, seen));
      assert Frames(b)[1..] == Frames(after);
      var rs := Rewrites(rewrite, Frames(b), seen);
      assert rs == [r] + Rewrites(rewrite, Frames(after), Counted(r, seen));
      assert rs[1..] == Rewrites(rewrite, Frames(after), Counted(r, seen));
  }

  /** The event at position k is rewritten knowing exactly whether a response event came before. */
  lemma {:induction false} RewritesAt(rewrite: Rewriting, frames: seq<Frame>, seen: nat, k: nat)
    requires k < |frames|
    ensures var rs := Rewrites(rewrite, frames, seen);
            rs[k] == rewrite(frames[k].event, seen + Responses(rs[..k]) > 0)
  {
    var rs := Rewrites(rewrite, frames, seen);
    if k > 0 {
      RewritesAt(rewrite, frames[1..], Counted(rs[0], seen), k - 1);
      assert rs[1..] == Rewrites(rewrite, frames[1..], Counted(rs[0], seen));
      assert rs[..k][1..] == rs[1..][..k - 1];
    }
  }

  lemma {:induction false} AnyInjectedMeans(rs: seq<Rewritten>)
    ensures AnyInjected(rs) <==> exists k :: 0 <= k < |rs| && rs[k].injected
  {
    if rs != [] {
      AnyInjectedMeans(rs[1..]);
      assert rs == [rs[0]] + rs[1..];
      if k :| 0 <= k < |rs[1..]| && rs[1..][k].injected {
        assert rs[k + 1].injected;
      }
    }
  }

  lemma {:induction false} ResponsesMeans(rs: seq<Rewritten>)
    ensures Responses(rs) > 0 <==> exists k :: 0 <= k < |rs| && rs[k].response
  {
    if rs != [] {
      ResponsesMeans(rs[1..]);
      assert rs == [rs[0]] + rs[1..];
      if k :| 0 <= k < |rs[1..]| && rs[1..][k].response {
        assert rs[k + 1].response;
      }
    }
  }

  // ------------------------------------------------------------------ unchanged streams

  /** How many delimiters are CR LF CR LF. */
  function CrlfCount(b: Text): nat
    decreases |b|
  {
    match FindEvent(b)
    case None => 0
    case Some(cut) => (if cut.delimiter == 4 then 1 else 0) + CrlfCount(b[cut.end + cut.delimiter..])
  }

  lemma {:induction false} NoCrlf(b: Text)
    ensures CrlfCount(b) == 0 <==> forall f :: f in Frames(b) ==> f.delimiter == 2
    decreases |b|
  {
    match FindEvent(b)
    case None =>
    case Some(cut) =>
      NoCrlf(b[cut.end + cut.delimiter..]);
      var f := Frame(b[..cut.end], cut.delimiter);
      assert f in Frames(b);
  }

  lemma {:induction false} LfCut(b: Text)
    requires FindEvent(b).Some? && FindEvent(b).value.delimiter == 2
    ensures var n := FindEvent(b).value.end;
            b == b[..n] + LF_LF + b[n + 2..]
  {
    FindEventIsFirst(b, FindEvent(b).value);
  }

  lemma {:induction false} PassedLength(b: Text, rs: seq<Rewritten>)
    requires |rs| == |Frames(b)| && forall k :: 0 <= k < |rs| ==> rs[k].event == Frames(b)[k].event
    ensures |Ended(rs)| + |Tail(b)| + 2 * CrlfCount(b) == |b|
    decreases |b|
  {
    match FindEvent(b)
    case None =>
    case Some(cut) =>
      var after, event := b[cut.end + cut.delimiter..], b[..cut.end];
      assert Frames(b) == [Frame(event, cut.delimiter)] + Frames(after);
      PassedLength(after, rs[1..]);
  }

  lemma {:induction false} PassedBytes(b: Text, rs: seq<Rewritten>)
    requires |rs| == |Frames(b)| && forall k :: 0 <= k < |rs| ==> rs[k].event == Frames(b)[k].event
    requires CrlfCount(b) == 0
    ensures Ended(rs) + Tail(b) == b
    decreases |b|
  {
    match FindEvent(b)
    case None =>
      assert [] + b == b;
    case Some(cut) =>
      var after, event := b[cut.end + cut.delimiter..], b[..cut.end];
      assert Frames(b) == [Frame(event, cut.delimiter)] + Frames(after);
      PassedBytes(after, rs[1..]);
      LfCut(b);
      Associate(event + LF_LF, Ended(rs[1..]), Tail(after));
  }

  /** A stream whose events all pass unchanged reaches the client unchanged exactly when every
      delimiter in it is LF LF: each CR LF CR LF costs two bytes. */
  lemma {:induction false} PassedStream(rewrite: Rewriting, b: Text)
    requires var rs := Rewrites(rewrite, Frames(b), 0);
             forall k :: 0 <= k < |rs| ==> rs[k].event == Frames(b)[k].event
    ensures var d := Drain(rewrite, b, 0);
            d.output + d.buffer == b <==> forall f :: f in Frames(b) ==> f.delimiter == 2
  {
    DrainedFrames(rewrite, b, 0);
    var rs := Rewrites(rewrite, Frames(b), 0);
    PassedLength(b, rs);
    if CrlfCount(b) == 0 {
      PassedBytes(b, rs);
    }
    NoCrlf(b);
  }

  // ------------------------------------------------------------------ reading the output again

  /** The event, ended by LF LF, is read back as itself. */
  predicate Framed(event: Text) {
    FindEvent(event + LF_LF) == Some(Cut(|event|, 2))
  }

  lemma {:induction false} FramedMeans(event: Text)
    ensures Framed(event) <==> Clear(event + LF_LF, 0, |event|)
  {
    FindEventIsFirst(event + LF_LF, Cut(|event|, 2));
  }

  /** The event ends neither in LF nor in CR LF CR. */
  predicate EndsWell(event: Text) {
    var n := |event|;
    && !(n >= 1 && event[n - 1] == LF)
    && !(n >= 3 && event[n - 3] == CR && event[n - 2] == LF && event[n - 1] == CR)
  }

  /** Put out unchanged, an event that was cut from a stream is read back as itself exactly when it
      ends neither in LF nor in CR LF CR. */
  lemma {:induction false} FramedExactly(event: Text)
    requires FindEvent(event).None?
    ensures Framed(event) <==> EndsWell(event)
  {
    var n, b := |event|, event + LF_LF;
    FramedMeans(event);
    FindEventIsFirst(event, Cut(0, 0));
    assert n >= 1 && event[n - 1] == LF ==> Delimited(b, n - 1);
    assert n >= 3 && event[n - 3] == CR && event[n - 2] == LF && event[n - 1] == CR ==> Delimited(b, n - 3);
    forall j: nat | j < n && Delimited(b, j)
      ensures event[n - 1] == LF || (n >= 3 && event[n - 3] == CR && event[n - 2] == LF && event[n - 1] == CR)
    {
      assert !Delimited(event, j);
    }
  }

  /** A cut event holds no delimiter. */
  lemma {:induction false} CutEventIsClear(b: Text)
    requires FindEvent(b).Some?
    ensures FindEvent(b[..FindEvent(b).value.end]).None?
  {
    var cut := FindEvent(b).value;
    FindEventIsFirst(b, cut);
    var event := b[..cut.end];
    FindEventIsFirst(event, cut);
    forall j: nat | j < |event| ensures !Delimited(event, j) {
      assert !Delimited(b, j);
    }
  }

  function LfFrames(rs: seq<Rewritten>): seq<Frame> {
    if rs == [] then [] else [Frame(rs[0].event, 2)] + LfFrames(rs[1..])
  }

  lemma {:induction false} EndedReadsBack(rs: seq<Rewritten>, tail: Text)
    requires forall r :: r in rs ==> Framed(r.event)
    requires FindEvent(tail).None?
    ensures Frames(Ended(rs) + tail) == LfFrames(rs) && Tail(Ended(rs) + tail) == tail
  {
    if rs == [] {
      assert Ended(rs) + tail == tail;
    } else {
      EndedReadsBack(rs[1..], tail);
      var rest := Ended(rs[1..]) + tail;
      var first := rs[0].event + LF_LF;
      assert Ended(rs) + tail == first + rest;
      CutIsStable(first, rest);
      assert (first + rest)[..|rs[0].event|] == rs[0].event;
      assert (first + rest)[|rs[0].event| + 2..] == rest;
    }
  }

  lemma {:induction false} FirstIsFramed(event: Text, rest: Text)
    requires FindEvent(event + LF_LF + rest) == Some(Cut(|event|, 2))
    ensures Framed(event)
  {
    var b := event + LF_LF + rest;
    FindEventIsFirst(b, Cut(|event|, 2));
    FramedMeans(event);
    forall j: nat | j < |event| ensures !Delimited(event + LF_LF, j) {
      assert !Delimited(b, j);
    }
  }

  lemma {:induction false} FirstFrame(b: Text, event: Text, rest: Text, frames: seq<Frame>)
    requires b == event + LF_LF + rest && Frames(b) == [Frame(event, 2)] + frames
    ensures FindEvent(b) == Some(Cut(|event|, 2)) && Frames(rest) == frames
  {
    var cut := FindEvent(b).value;
    assert Frames(b)[0] == Frame(b[..cut.end], cut.delimiter);
    assert b[|event| + 2..] == rest;
    assert Frames(b)[1..] == Frames(rest);
  }

  lemma {:induction false} ReadBackIsFramed(rs: seq<Rewritten>, tail: Text)
    requires Frames(Ended(rs) + tail) == LfFrames(rs)
    ensures forall k :: 0 <= k < |rs| ==> Framed(rs[k].event)
  {
    if rs != [] {
      var event, rest := rs[0].event, Ended(rs[1..]) + tail;
      assert Ended(rs) + tail == event + LF_LF + rest;
      FirstFrame(event + LF_LF + rest, event, rest, LfFrames(rs[1..]));
      FirstIsFramed(event, rest);
      ReadBackIsFramed(rs[1..], tail);
    }
  }

  /** A client that cuts the rewritten stream by the same rules reads exactly the rewritten events,
      in order, and the same tail. */
  ghost predicate ReadsBack(rewrite: Rewriting, b: Text) {
    var d := Drain(rewrite, b, 0);
    Frames(d.output + d.buffer) == LfFrames(Rewrites(rewrite, Frames(b), 0)) && Tail(d.output + d.buffer) == Tail(b)
  }

  /** No event is lost, split, merged or reordered exactly when each rewritten event by itself is read
      back as one event. */
  lemma {:induction false} OutputReadsBack(rewrite: Rewriting, b: Text)
    ensures ReadsBack(rewrite, b) <==> forall r :: r in Rewrites(rewrite, Frames(b), 0) ==> Framed(r.event)
  {
    var rs := Rewrites(rewrite, Frames(b), 0);
    DrainedFrames(rewrite, b, 0);
    DrainLeavesNoEvent(rewrite, b, 0);
    if forall r :: r in rs ==> Framed(r.event) {
      EndedReadsBack(rs, Tail(b));
    }
    if ReadsBack(rewrite, b) {
      ReadBackIsFramed(rs, Tail(b));
    }
  }

  lemma {:induction false} FramesAreClear(b: Text)
    ensures forall f :: f in Frames(b) ==> FindEvent(f.event).None?
    decreases |b|
  {
    match FindEvent(b)
    case None =>
    case Some(cut) =>
      CutEventIsClear(b);
      FramesAreClear(b[cut.end + cut.delimiter..]);
  }
}

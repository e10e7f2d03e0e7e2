/**
 Messages on the plugin's pipe, separated by two newlines.  Part one is the byte level: what a split reader finds in a
 stream, however the stream arrives.  Part two is the request level: batches that are served one request per call.
 */
module Framing {
  import opened Base

  // ----- bytes

  predicate BreakAt(data: string, i: nat) { i + 1 < |data| && data[i] == '\n' && data[i + 1] == '\n' }

  /** Where the first double newline starts. */
  function Find(data: string): (r: Option<nat>)
    ensures r.Some? ==> BreakAt(data, r.value) && forall j :: 0 <= j < r.value ==> !BreakAt(data, j)
    ensures r.None? ==> forall j: nat :: !BreakAt(data, j)
  {
    var n := |data| - 2;
    if n < 0 then None else
    var before := Find(data[..n + 1]);
    assert forall j: nat :: j < n ==> (BreakAt(data, j) <==> BreakAt(data[..n + 1], j));
    if before.Some? then before else if BreakAt(data, n) then Some(n) else None
  }

  /** The split loop: it never looks past the first double newline. */
  method ScanDoubleNewline(data: string) returns (advance: nat, token: Option<string>)
    ensures Find(data).None? ==> advance == 0 && token == None
    ensures Find(data).Some? ==> advance == Find(data).value + 2 <= |data| && token == Some(data[..Find(data).value])
  {
    for i := 0 to |data|
      invariant forall j :: 0 <= j < i ==> !BreakAt(data, j)
    {
      if data[i] == '\n' && i + 1 < |data| && data[i + 1] == '\n' {
        assert BreakAt(data, i);
        return i + 2, Some(data[..i]);
      }
    }
    return 0, None;
  }

  /** The messages in a stream; what follows the last separator is dropped. */
  function Tokens(data: string): seq<string>
    decreases |data|
  {
    var r := Find(data);
    if r.None? then [] else [data[..r.value]] + Tokens(data[r.value + 2..])
  }

  function Concat(chunks: seq<string>): string {
    if chunks == [] then "" else chunks[0] + Concat(chunks[1..])
  }

  /** A scanner over reads of any size: split what is buffered, and read more only when there is no separator in it. */
  function ScanAll(buf: string, chunks: seq<string>): seq<string>
    decreases |chunks|, |buf|
  {
    var r := Find(buf);
    if r.Some? then [buf[..r.value]] + ScanAll(buf[r.value + 2..], chunks)
    else if chunks == [] then []
    else ScanAll(buf + chunks[0], chunks[1..])
  }

  /** More input does not move the first separator. */
  lemma FindMore(data: string, more: string)
    requires Find(data).Some?
    ensures Find(data + more) == Find(data)
  {
    var i := Find(data).value;
    assert BreakAt(data + more, i);
    assert forall j :: 0 <= j < i ==> (BreakAt(data + more, j) <==> BreakAt(data, j));
  }

  /** The chunking of a stream does not change its messages. */
  lemma {:induction false} ChunkingIrrelevant(buf: string, chunks: seq<string>)
    ensures ScanAll(buf, chunks) == Tokens(buf + Concat(chunks))
    decreases |chunks|, |buf|
  {
    var r := Find(buf);
    var all := buf + Concat(chunks);
    if r.Some? {
      FindMore(buf, Concat(chunks));
      assert all[..r.value] == buf[..r.value];
      assert all[r.value + 2..] == buf[r.value + 2..] + Concat(chunks);
      ChunkingIrrelevant(buf[r.value + 2..], chunks);
    } else if chunks == [] {
      assert all == buf;
    } else {
      assert all == buf + chunks[0] + Concat(chunks[1..]);
      ChunkingIrrelevant(buf + chunks[0], chunks[1..]);
    }
  }

  function Frame(m: string): string { m + "\n\n" }

  function FrameAll(msgs: seq<string>): string {
    if msgs == [] then "" else Frame(msgs[0]) + FrameAll(msgs[1..])
  }

  predicate StopsAt(m: string, i: nat) { i < |m| && m[i] == '\n' && (i + 1 == |m| || m[i + 1] == '\n') }

  /** No double newline inside and no newline at the end. */
  predicate Framable(m: string) { forall i :: 0 <= i < |m| ==> !StopsAt(m, i) }

  lemma FirstBreak(m: string, rest: string)
    ensures var r := Find(Frame(m) + rest);
            r.Some? && r.value <= |m| && (Framable(m) <==> r.value == |m|)
  {
    var all := Frame(m) + rest;
    assert BreakAt(all, |m|);
    assert forall i :: 0 <= i < |m| ==> (BreakAt(all, i) <==> StopsAt(m, i));
  }

  /** A framed list of messages is read back exactly when every message can be framed. */
  lemma {:induction false} FramesReturn(msgs: seq<string>)
    ensures Tokens(FrameAll(msgs)) == msgs <==> forall i :: 0 <= i < |msgs| ==> Framable(msgs[i])
  {
    if msgs != [] {
      var m, rest := msgs[0], FrameAll(msgs[1..]);
      var all := Frame(m) + rest;
      FirstBreak(m, rest);
      if Framable(m) {
        assert all[..|m|] == m && all[|m| + 2..] == rest;
        FramesReturn(msgs[1..]);
        assert msgs == [m] + msgs[1..];
        assert ([m] + Tokens(rest))[1..] == Tokens(rest);
      } else {
        assert |Tokens(all)[0]| < |m|;
      }
    }
  }

  /** Whatever the writer framed reaches the reader whole and in order, in reads of any size. */
  lemma WrittenIsRead(msgs: seq<string>, chunks: seq<string>)
    requires Concat(chunks) == FrameAll(msgs)
    ensures ScanAll("", chunks) == msgs <==> forall i :: 0 <= i < |msgs| ==> Framable(msgs[i])
  {
    ChunkingIrrelevant("", chunks);
    assert "" + Concat(chunks) == Concat(chunks);
    FramesReturn(msgs);
  }

  // ----- requests

  datatype Request = Request(text: string)

  /**
   Decoding a batch: text that is not JSON leaves the target alone, wrong elements still fill it, a null is None.
   */
  datatype Batch = Syntax | Elements(requests: seq<Option<Request>>, ok: bool)

  /** The JSON decoder, for one request and for a batch. */
  datatype Json = Json(one: string -> Option<Request>, batch: string -> Batch)

  datatype Reply = Got(request: Request) | Nil | Failed | End

  datatype Pending = Pending(buffered: seq<Option<Request>>, frames: seq<string>)

  /** One call: the answer and what is left. */
  datatype Served = Served(reply: Reply, rest: Pending)

  function Serve(reply: Option<Request>): Reply { if reply.Some? then Got(reply.value) else Nil }

  /** Reading the next frame with an empty-handed buffer `left`. */
  function NextFrame(json: Json, left: seq<Option<Request>>, frames: seq<string>): Served {
    if frames == [] then Served(End, Pending(left, [])) else
    var msg, more := frames[0], frames[1..];
    if msg == "" then Served(Failed, Pending(left, more))
    else if msg[0] == '[' then
      match json.batch(msg)
      case Syntax => Served(Failed, Pending(left, more))
      case Elements(es, false) => Served(Failed, Pending(es, more))
      case Elements(es, true) =>
        if es == [] then Served(Nil, Pending([], more)) else Served(Serve(es[0]), Pending(es[1..], more))
    else
      Served(if json.one(msg).Some? then Got(json.one(msg).value) else Failed, Pending(left, more))
  }

  function Next(json: Json, p: Pending): Served {
    if p.buffered == [] then NextFrame(json, [], p.frames)
    else if p.buffered[0].Some? then Served(Got(p.buffered[0].value), p.(buffered := p.buffered[1..]))
    else NextFrame(json, p.buffered[1..], p.frames)
  }

  /** The answers of all calls up to the end of input. */
  function Replies(json: Json, p: Pending): seq<Reply>
    decreases |p.frames|, |p.buffered|
  {
    var s := Next(json, p);
    if s.reply == End then [] else [s.reply] + Replies(json, s.rest)
  }

  // ----- the order a reader of the protocol expects

  function Each(es: seq<Option<Request>>): seq<Reply> { seq(|es|, i requires 0 <= i < |es| => Serve(es[i])) }

  /** Everything one frame is good for. */
  function Answers(json: Json, msg: string): seq<Reply> {
    if msg == "" then [Failed]
    else if msg[0] == '[' then
      match json.batch(msg)
      case Syntax => [Failed]
      case Elements(es, false) => [Failed] + Each(es)
      case Elements(es, true) => if es == [] then [Nil] else Each(es)
    else if json.one(msg).Some? then [Got(json.one(msg).value)] else [Failed]
  }

  function InOrder(json: Json, frames: seq<string>): seq<Reply> {
    if frames == [] then [] else Answers(json, frames[0]) + InOrder(json, frames[1..])
  }

  /** No null request in a place where the buffer would be asked for it. */
  predicate Full(es: seq<Option<Request>>) { forall i :: 0 <= i < |es| ==> es[i].Some? }

  predicate Whole(json: Json, msg: string) {
    msg != "" && msg[0] == '[' ==>
      match json.batch(msg)
      case Syntax => true
      case Elements(es, false) => Full(es)
      case Elements(es, true) => es == [] || Full(es[1..])
  }

  predicate AllWhole(json: Json, frames: seq<string>) { forall i :: 0 <= i < |frames| ==> Whole(json, frames[i]) }

  /** What a frame leaves in an empty buffer, and what it has answered by then. */
  lemma OneFrame(json: Json, frames: seq<string>)
    requires frames != []
    ensures var s := NextFrame(json, [], frames);
            && s.rest.frames == frames[1..] && s.reply != End
            && Answers(json, frames[0]) == [s.reply] + Each(s.rest.buffered)
            && (Whole(json, frames[0]) <==> Full(s.rest.buffered))
  {
    var msg := frames[0];
    if msg != "" && msg[0] == '[' && json.batch(msg).Elements? && json.batch(msg).ok && json.batch(msg).requests != [] {
      var es := json.batch(msg).requests;
      assert Each(es) == [Serve(es[0])] + Each(es[1..]);
    }
  }

  lemma AllWholeSplit(json: Json, frames: seq<string>)
    requires frames != []
    ensures AllWhole(json, frames) <==> Whole(json, frames[0]) && AllWhole(json, frames[1..])
  {
    assert frames == [frames[0]] + frames[1..];
  }

  /** Without nulls, one call takes the first of the answers still due. */
  lemma TakesFirst(json: Json, p: Pending)
    requires Full(p.buffered) && AllWhole(json, p.frames) && (p.buffered != [] || p.frames != [])
    ensures var s := Next(json, p);
            && s.reply != End && Full(s.rest.buffered) && AllWhole(json, s.rest.frames)
            && Each(p.buffered) + InOrder(json, p.frames)
              == [s.reply] + (Each(s.rest.buffered) + InOrder(json, s.rest.frames))
  {
    var s := Next(json, p);
    if p.buffered != [] {
      assert Each(p.buffered) == [s.reply] + Each(s.rest.buffered);
    } else {
      OneFrame(json, p.frames);
      AllWholeSplit(json, p.frames);
    }
  }

  /** Without null requests every frame is served to its end before the next one is read. */
  lemma {:induction false} ServedInOrder(json: Json, p: Pending)
    requires Full(p.buffered) && AllWhole(json, p.frames)
    ensures Replies(json, p) == Each(p.buffered) + InOrder(json, p.frames)
    decreases |p.frames|, |p.buffered|
  {
    if p.buffered != [] || p.frames != [] {
      TakesFirst(json, p);
      ServedInOrder(json, Next(json, p).rest);
    }
  }

  /** The frame replaces whatever is left in the buffer. */
  predicate Replaces(json: Json, msg: string) { msg != "" && msg[0] == '[' && json.batch(msg).Elements? }

  /**
   Answers that never come: a null the buffer is asked for costs its own, since the call reads on instead, and if a
   batch comes next, or nothing, everything that was left behind the null is lost too.
   */
  function Missing(json: Json, p: Pending): nat
    decreases |p.frames|, |p.buffered|
  {
    if p.frames == [] && (p.buffered == [] || p.buffered[0].None?) then |p.buffered|
    else
      var rest := Missing(json, Next(json, p).rest);
      if p.buffered == [] || p.buffered[0].Some? then rest
      else if Replaces(json, p.frames[0]) then |p.buffered| + rest
      else 1 + rest
  }

  /** What a frame answers, with requests still in the buffer. */
  lemma FrameCount(json: Json, left: seq<Option<Request>>, frames: seq<string>)
    requires frames != []
    ensures var s := NextFrame(json, left, frames);
            && s.rest.frames == frames[1..] && s.reply != End
            && (if Replaces(json, frames[0]) then |Answers(json, frames[0])| == 1 + |s.rest.buffered|
                else |Answers(json, frames[0])| == 1 && s.rest.buffered == left)
  {
  }

  /** Every answer that is due comes or is counted as missing. */
  lemma {:induction false} AnswersCounted(json: Json, p: Pending)
    ensures |Replies(json, p)| + Missing(json, p) == |p.buffered| + |InOrder(json, p.frames)|
    decreases |p.frames|, |p.buffered|
  {
    if p.frames == [] && (p.buffered == [] || p.buffered[0].None?) {
      assert Next(json, p).reply == End;
    } else {
      if p.buffered == [] {
        FrameCount(json, [], p.frames);
      } else if p.buffered[0].None? {
        FrameCount(json, p.buffered[1..], p.frames);
      }
      AnswersCounted(json, Next(json, p).rest);
    }
  }

  /** Nothing is missing exactly when no null is ever asked for. */
  lemma {:induction false} NoneMissing(json: Json, p: Pending)
    ensures Missing(json, p) == 0 <==> Full(p.buffered) && AllWhole(json, p.frames)
    decreases |p.frames|, |p.buffered|
  {
    if p.buffered != [] && p.buffered[0].Some? {
      NoneMissing(json, Next(json, p).rest);
      assert p.buffered == [p.buffered[0]] + p.buffered[1..];
    } else if p.buffered == [] && p.frames != [] {
      OneFrame(json, p.frames);
      AllWholeSplit(json, p.frames);
      NoneMissing(json, Next(json, p).rest);
    }
  }

  /** The calls answer every frame in order exactly when no batch holds a null after its first request. */
  lemma InOrderIffWhole(json: Json, frames: seq<string>)
    ensures Replies(json, Pending([], frames)) == InOrder(json, frames) <==> AllWhole(json, frames)
  {
    if AllWhole(json, frames) {
      ServedInOrder(json, Pending([], frames));
    } else {
      AnswersCounted(json, Pending([], frames));
      NoneMissing(json, Pending([], frames));
    }
  }

  /** It happens: of `[a, null, b]` followed by `[c]`, only `a` and `c` are served. */
  lemma NullSwallows(a: Request, b: Request, c: Request)
    ensures var json := Json(m => None, m => if m == "[1" then Elements([Some(a), None, Some(b)], true)
                                             else Elements([Some(c)], true));
            && InOrder(json, ["[1", "[2"]) == [Got(a), Nil, Got(b), Got(c)]
            && Replies(json, Pending([], ["[1", "[2"])) == [Got(a), Got(c)]
  {
    var json := Json(m => None, m => if m == "[1" then Elements([Some(a), None, Some(b)], true)
                                     else Elements([Some(c)], true));
    var frames := ["[1", "[2"];
    assert frames[1..] == ["[2"] && ["[2"][1..] == [];
    assert Each([Some(a), None, Some(b)]) == [Got(a), Nil, Got(b)] && Each([Some(c)]) == [Got(c)];
    assert InOrder(json, ["[2"]) == [Got(c)];
    var p1 := Next(json, Pending([], frames));
    assert p1 == Served(Got(a), Pending([None, Some(b)], ["[2"]));
    var p2 := Next(json, p1.rest);
    assert p2 == Served(Got(c), Pending([], []));
    assert Replies(json, p2.rest) == [];
    assert Replies(json, p1.rest) == [Got(c)];
  }
}

/** The two ends of the plugin's pipe: the writer that frames replies and the reader that hands out requests. */
module PluginPipe {
  import opened Base
  import opened Framing

  class Writer {
    /** Everything the other side has received. */
    var out: string

    constructor ()
      ensures out == ""
    {
      out := "";
    }

    /**
     `data` is the encoded message, or nothing if encoding failed; the pipe takes the first `accepted` bytes of a frame.
     */
    method Write(data: Option<string>, accepted: nat) returns (ok: bool)
      modifies this
      ensures ok <==> data.Some? && accepted >= |Frame(data.value)|
      ensures ok ==> out == old(out) + Frame(data.value)
      ensures !ok ==>
              old(out) <= out && (data.None? ==> out == old(out)) && (data.Some? ==> out < old(out) + Frame(data.value))
    {
      if data.None? {
        return false;
      }
      var frame := data.value + "\n\n";
      if accepted < |frame| {
        out := out + frame[..accepted];
        return false;
      }
      out := out + frame;
      return true;
    }
  }

  class Reader {
    const json: Json
    var chunks: seq<string>
    var buf: string
    var buffered: seq<Option<Request>>

    /** The bytes not yet split. */
    ghost function Stream(): string
      reads this
    {
      buf + Concat(chunks)
    }

    ghost function View(): Pending
      reads this
    {
      Pending(buffered, Tokens(Stream()))
    }

    constructor (json: Json, chunks: seq<string>)
      ensures this.json == json && View() == Pending([], Tokens(Concat(chunks)))
    {
      this.json, this.chunks, buf, buffered := json, chunks, "", [];
      new;
      assert Stream() == Concat(chunks);
    }

    /** Reads until the buffer holds a separator or the input ends, and splits off one message. */
    method Scan() returns (token: Option<string>)
      modifies this`chunks, this`buf
      ensures var r := Find(old(Stream()));
              if r.None? then token == None && Stream() == old(Stream())
              else token == Some(old(Stream())[..r.value]) && Stream() == old(Stream())[r.value + 2..]
    {
      var advance: nat;
      advance, token := ScanDoubleNewline(buf);
      while token.None? && chunks != []
        invariant Stream() == old(Stream())
        invariant if token.None? then Find(buf).None?
                  else Find(buf).Some? && token == Some(buf[..Find(buf).value]) && advance == Find(buf).value + 2
        decreases |chunks|
      {
        assert buf + Concat(chunks) == buf + chunks[0] + Concat(chunks[1..]);
        buf, chunks := buf + chunks[0], chunks[1..];
        advance, token := ScanDoubleNewline(buf);
      }
      if token.Some? {
        FindMore(buf, Concat(chunks));
        assert Stream()[..advance - 2] == buf[..advance - 2];
        assert Stream()[advance..] == buf[advance..] + Concat(chunks);
        buf := buf[advance..];
      } else {
        assert Stream() == buf;
      }
    }

    /**
     A request means that the call is served; none means that the next frame is due, with what is left behind a null.
     */
    method TakeFromBuffer() returns (req: Option<Request>)
      modifies this`buffered
      ensures old(buffered) == (if old(buffered) == [] then [] else [req]) + buffered
              && (old(buffered) == [] ==> req.None?)
      ensures req.Some? ==> Served(Got(req.value), View()) == Framing.Next(json, old(View()))
      ensures req.None? ==> NextFrame(json, buffered, View().frames) == Framing.Next(json, old(View()))
    {
      req := None;
      if |buffered| > 0 {
        req := buffered[0];
        buffered := buffered[1..];
      }
    }

    method Next() returns (reply: Reply)
      modifies this
      ensures Served(reply, View()) == Framing.Next(json, old(View()))
    {
      var req := TakeFromBuffer();
      if req.Some? {
        return Got(req.value);
      }
      var token := Scan();
      if token.None? {
        return End;
      }
      var msg := token.value;
      if |msg| == 0 {
        return Failed;
      }
      if msg[0] == '[' {
        var batch := json.batch(msg);
        if batch.Syntax? {
          return Failed;
        }
        buffered := batch.requests;
        if !batch.ok {
          return Failed;
        }
        req := TakeFromBuffer();
        return Serve(req);
      }
      var one := json.one(msg);
      return if one.Some? then Got(one.value) else Failed;
    }
  }
}

/** The AMI client's reassembly of frames from chunks, and their routing. */
module AmiClient {
  import opened Wrappers
  import opened Strings
  import opened Splitting
  import opened AmiMessage

  /** Where a frame went: a response handler, the listeners of an event, or nowhere. */
  datatype Route =
    | ToResponse(actionId: string, msg: Message)
    | ToEvent(name: string, msg: Message)
    | Unrouted(msg: Message)

  function Value(msg: Message, key: string): string {
    if key in msg then msg[key] else ""
  }

  predicate ToHandler(msg: Message, handlers: set<string>) {
    |Value(msg, "Response")| > 0 && Value(msg, "ActionID") in handlers
  }

  /** The frames after which processBuffer returns at once, leaving the rest of the buffer. */
  predicate Stops(msg: Message, handlers: set<string>) {
    ToHandler(msg, handlers) || Value(msg, "Response") == "Goodbye"
  }

  function RouteOf(msg: Message, handlers: set<string>): Route {
    if ToHandler(msg, handlers) then ToResponse(Value(msg, "ActionID"), msg)
    else if Value(msg, "Response") == "Goodbye" then Unrouted(msg)
    else if |Value(msg, "Event")| > 0 then ToEvent(Value(msg, "Event"), msg)
    else Unrouted(msg)
  }

  /** The frames taken out so far, with those still in the buffer, are the whole input split. */
  ghost predicate Fits(received: string, frames: seq<string>, buffer: string) {
    && Pieces(received, FRAME_END) == frames + Pieces(buffer, FRAME_END)
    && Remainder(received, FRAME_END) == Remainder(buffer, FRAME_END)
  }

  class Client {
    var buffer: string
    var handlers: set<string>
    var routed: seq<Route>
    ghost var received: string
    ghost var frames: seq<string>

    ghost predicate Valid()
      reads this
    {
      && Fits(received, frames, buffer)
      && |routed| == |frames|
      && forall i :: 0 <= i < |frames| ==> routed[i].msg == Parsed(frames[i])
    }

    constructor ()
      ensures Valid() && buffer == "" && received == "" && frames == [] && handlers == {}
    {
      buffer, handlers, routed := "", {}, [];
      received, frames := "", [];
    }

    /** Actions register and time-outs remove response handlers between chunks. */
    method SetHandlers(now: set<string>)
      requires Valid()
      modifies this`handlers
      ensures Valid() && handlers == now
    {
      handlers := now;
    }

    method ProcessBuffer()
      requires Valid()
      modifies this`buffer, this`routed, this`frames
      ensures Valid() && old(frames) <= frames && old(routed) <= routed
      ensures forall i :: |old(frames)| <= i < |frames| ==> routed[i] == RouteOf(Parsed(frames[i]), handlers)
      ensures forall i :: |old(frames)| <= i < |frames| - 1 ==> !Stops(Parsed(frames[i]), handlers)
      ensures || Find(buffer, FRAME_END).None?
              || (|frames| > |old(frames)| && Stops(Parsed(frames[|frames| - 1]), handlers))
    {
      hide Find, Pieces, Remainder, Parsed;
      while Find(buffer, FRAME_END).Some?
        invariant Valid() && old(frames) <= frames && old(routed) <= routed
        invariant forall i :: |old(frames)| <= i < |frames| ==>
                                && routed[i] == RouteOf(Parsed(frames[i]), handlers)
                                && !Stops(Parsed(frames[i]), handlers)
        decreases |buffer|
      {
        var idx := Find(buffer, FRAME_END).value;
        var raw := buffer[..idx];
        TakeFrame(received, frames, buffer, idx);
        buffer := buffer[idx + 4..];
        var message := ParseAmiMessage(raw);
        frames := frames + [raw];
        if |Value(message, "Response")| > 0 {
          var actionId := Value(message, "ActionID");
          if actionId in handlers {
            routed := routed + [ToResponse(actionId, message)];
            return;
          }
          if Value(message, "Response") == "Goodbye" {
            routed := routed + [Unrouted(message)];
            return;
          }
        }
        if |Value(message, "Event")| > 0 {
          routed := routed + [ToEvent(Value(message, "Event"), message)];
        } else {
          routed := routed + [Unrouted(message)];
        }
      }
    }

    /** The socket's data handler. */
    method OnData(chunk: string)
      requires Valid()
      modifies this
      ensures Valid() && received == old(received) + chunk && handlers == old(handlers)
      ensures old(frames) <= frames && old(routed) <= routed
      ensures || Find(buffer, FRAME_END).None?
              || (|frames| > |old(frames)| && Stops(Parsed(frames[|frames| - 1]), handlers))
    {
      MoreInput(received, frames, buffer, chunk);
      received := received + chunk;
      buffer := buffer + chunk;
      ProcessBuffer();
    }
  }

  lemma TakeFrame(received: string, frames: seq<string>, buffer: string, idx: nat)
    requires Fits(received, frames, buffer) && Find(buffer, FRAME_END) == Some(idx)
    ensures Fits(received, frames + [buffer[..idx]], buffer[idx + 4..])
  {
    hide Find;
    assert |FRAME_END| == 4;
  }

  lemma MoreInput(received: string, frames: seq<string>, buffer: string, chunk: string)
    requires Fits(received, frames, buffer)
    ensures Fits(received + chunk, frames, buffer + chunk)
  {
    hide Pieces, Remainder;
    PiecesAppend(received, chunk, FRAME_END);
    PiecesAppend(buffer, chunk, FRAME_END);
  }

  // ---- what holds for any chunking ----

  /** The frames handed on are a prefix of the input split, and with the buffer they rebuild the input. */
  lemma FramesRebuild(received: string, frames: seq<string>, buffer: string)
    requires Fits(received, frames, buffer)
    ensures frames <= Pieces(received, FRAME_END)
    ensures Glue(frames, FRAME_END) + buffer == received
  {
    hide Pieces, Remainder, Glue;
    var b := Pieces(buffer, FRAME_END);
    PiecesRebuild(received, FRAME_END);
    PiecesRebuild(buffer, FRAME_END);
    GlueAppend(frames, b);
    assert Glue(frames, FRAME_END) + (Glue(b, FRAME_END) + Remainder(buffer, FRAME_END))
           == Glue(frames, FRAME_END) + Glue(b, FRAME_END) + Remainder(buffer, FRAME_END);
  }

  lemma {:induction false} GlueAppend(a: seq<string>, b: seq<string>)
    ensures Glue(a + b, FRAME_END) == Glue(a, FRAME_END) + Glue(b, FRAME_END)
  {
    if a == [] {
      assert a + b == b;
    } else {
      assert (a + b)[1..] == a[1..] + b;
      GlueAppend(a[1..], b);
    }
  }

  /** Two chunkings of the same input agree on the frames as far as both have gone, and wholly when none waits. */
  lemma ChunkIndependent(received: string, f1: seq<string>, b1: string, f2: seq<string>, b2: string)
    requires Fits(received, f1, b1) && Fits(received, f2, b2)
    ensures f1 <= f2 || f2 <= f1
    ensures Find(b1, FRAME_END).None? && Find(b2, FRAME_END).None? ==> f1 == f2 && b1 == b2
  {
    var r := Pieces(received, FRAME_END);
    assert f1 == r[..|f1|] && f2 == r[..|f2|];
  }

  /** Fed a stream of printed messages in any chunks, the client hands on their field maps, in order. */
  lemma PrintedStreamArrives(messages: seq<seq<(string, string)>>, frames: seq<string>, buffer: string)
    requires forall i :: 0 <= i < |messages| ==> messages[i] != [] && AllClean(messages[i])
    requires Fits(PrintedAll(messages), frames, buffer)
    ensures |frames| <= |messages|
    ensures forall i :: 0 <= i < |frames| ==> Parsed(frames[i]) == FieldMap(map[], messages[i])
    ensures Find(buffer, FRAME_END).None? ==> |frames| == |messages| && buffer == ""
  {
    StreamFrames(messages);
    forall i | 0 <= i < |frames|
      ensures Parsed(frames[i]) == FieldMap(map[], messages[i])
    {
      assert frames[i] == Frames(messages)[i];
      ParsePrinted(messages[i]);
    }
  }
}

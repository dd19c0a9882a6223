// scripts/lib/workspace-agent-handshake.ts:227-262: length-prefixed frames, split off a byte stream that
// arrives in chunks, for readers that may call before or after the bytes arrive.
module FramedReader {
  import opened Prelude
  import opened Bytes
  import Wire

  // --- Frames in a stream ---

  // A whole frame stands at the front.
  predicate HasFrame(s: bytes) {
    |s| >= 4 && |s| >= U32BE(s) + 4
  }

  // The frames of a stream, in order, and the bytes left over.
  function Frames(s: bytes): seq<bytes> {
    if HasFrame(s) then [s[4..U32BE(s) + 4]] + Frames(s[U32BE(s) + 4..]) else []
  }

  function Rest(s: bytes): bytes {
    if HasFrame(s) then Rest(s[U32BE(s) + 4..]) else s
  }

  lemma FrameInFront(s: bytes, more: bytes)
    requires HasFrame(s)
    ensures var n := U32BE(s) + 4;
      && HasFrame(s + more) && U32BE(s + more) == U32BE(s)
      && (s + more)[4..n] == s[4..n] && (s + more)[n..] == s[n..] + more
  {
    hide Join32;
  }

  lemma FramesOf(s: bytes)
    ensures Frames(s) == if HasFrame(s) then [s[4..U32BE(s) + 4]] + Frames(s[U32BE(s) + 4..]) else []
    ensures Rest(s) == if HasFrame(s) then Rest(s[U32BE(s) + 4..]) else s
  {
    hide U32BE;
  }

  // What comes later only adds frames.
  lemma {:induction false} FramesAppend(s: bytes, more: bytes)
    ensures Frames(s + more) == Frames(s) + Frames(Rest(s) + more) && Rest(s + more) == Rest(Rest(s) + more)
    decreases |s|
  {
    hide U32BE, Frames, Rest;
    FramesOf(s);
    if HasFrame(s) {
      var n := U32BE(s) + 4;
      FrameInFront(s, more);
      FramesOf(s + more);
      FramesAppend(s[n..], more);
      assert [s[4..n]] + (Frames(s[n..]) + Frames(Rest(s) + more)) == Frames(s) + Frames(Rest(s) + more);
    }
  }

  // The bytes left over hold no whole frame.
  lemma {:induction false} RestHasNoFrame(s: bytes)
    ensures !HasFrame(Rest(s))
    decreases |s|
  {
    if HasFrame(s) {
      RestHasNoFrame(s[U32BE(s) + 4..]);
    }
  }

  // --- Writing ---

  // `cleanupFrame`; none where `writeUInt32BE` throws.
  function CleanupFrame(field: nat, payload: bytes): Option<bytes> {
    var encoded := Wire.BytesField(field, payload);
    if |encoded| < 0x1_0000_0000 then Some(Be32(|encoded|) + encoded) else None
  }

  function Written(encoded: seq<bytes>): bytes
    requires forall b :: b in encoded ==> |b| < 0x1_0000_0000
  {
    if encoded == [] then [] else Be32(|encoded[0]|) + encoded[0] + Written(encoded[1..])
  }

  lemma FirstWritten(b: bytes, more: bytes)
    requires |b| < 0x1_0000_0000
    ensures var s := Be32(|b|) + b + more;
      HasFrame(s) && U32BE(s) == |b| && s[4..|b| + 4] == b && s[|b| + 4..] == more
  {
    hide Join32, Be32;
    var size := Be32(|b|);
    var s := size + b + more;
    assert s[0] == size[0] && s[1] == size[1] && s[2] == size[2] && s[3] == size[3];
    assert U32BE(s) == U32BE(size);
  }

  // Written frames come back unchanged, also when an unfinished one follows.
  lemma {:induction false} FramesOfWritten(encoded: seq<bytes>, tail: bytes)
    requires (forall b :: b in encoded ==> |b| < 0x1_0000_0000) && !HasFrame(tail)
    ensures Frames(Written(encoded) + tail) == encoded && Rest(Written(encoded) + tail) == tail
    decreases |encoded|
  {
    hide U32BE, Be32, HasFrame;
    if encoded == [] {
      assert Written(encoded) + tail == tail;
    } else {
      var b, more := encoded[0], Written(encoded[1..]) + tail;
      assert Written(encoded) + tail == Be32(|b|) + b + more;
      FirstWritten(b, more);
      FramesOfWritten(encoded[1..], tail);
    }
  }

  // The number and the bytes of the length-delimited field that fills a frame.
  function ReadBytesField(b: bytes): Option<(nat, bytes)> {
    var tag := Wire.ReadVarint(b, 0);
    if tag.None? || tag.value.0 % 8 != 2 then None
    else
      var size := Wire.ReadVarint(b, tag.value.1);
      if size.None? || size.value.1 + size.value.0 != |b| then None
      else Some((tag.value.0 / 8, b[size.value.1..]))
  }

  // In particular the frames that `cleanupFrame` writes: their field and payload can be read again.
  lemma CleanupFrameRoundTrip(field: nat, payload: bytes, tail: bytes)
    requires CleanupFrame(field, payload).Some? && !HasFrame(tail) && field * 8 + 2 <= Wire.MAX_SAFE
    ensures var frames := Frames(CleanupFrame(field, payload).value + tail);
      |frames| == 1 && ReadBytesField(frames[0]) == Some((field, payload))
  {
    hide Join32, HasFrame, Wire.BytesField;
    var b := Wire.BytesField(field, payload);
    assert Written([b]) == Be32(|b|) + b by {
      assert Be32(|b|) + b + [] == Be32(|b|) + b;
    }
    FramesOfWritten([b], tail);
    PayloadReads(field, payload);
  }

  lemma PayloadReads(field: nat, payload: bytes)
    requires field * 8 + 2 <= Wire.MAX_SAFE && |Wire.BytesField(field, payload)| <= Wire.MAX_SAFE
    ensures ReadBytesField(Wire.BytesField(field, payload)) == Some((field, payload))
  {
    hide Wire.ReadVarint, Wire.Varint;
    var tag, size := Wire.Varint(field * 8 + 2), Wire.Varint(|payload|);
    var b := Wire.BytesField(field, payload);
    Wire.VarintRoundTrip([], field * 8 + 2, size + payload);
    assert [] + tag + (size + payload) == b;
    Wire.VarintRoundTrip(tag, |payload|, payload);
    assert tag + size + payload == b;
  }

  // --- The reader ---

  datatype Outcome = Received(frame: bytes) | TimedOut

  function UpTo(a: nat, b: nat): (s: seq<nat>)
    ensures |s| == if a < b then b - a else 0
    ensures forall i :: 0 <= i < |s| ==> s[i] == a + i
  {
    if a >= b then [] else seq(b - a, i requires 0 <= i => a + i)
  }

  // Calls are numbered from 0; `settled` holds how a call's promise settled. `stream` is all the bytes
  // that arrived, `expired` the calls whose timer ran out.
  class Reader {
    var buffered: bytes
    var frames: seq<bytes>
    var waiting: seq<nat>
    var settled: map<nat, Outcome>
    var calls: nat
    ghost var stream: bytes
    ghost var expired: set<nat>

    // The n-th call gets the n-th frame, whatever the chunks and whenever the calls were made; a call
    // that timed out leaves its frame to nobody. Frames wait only if no call does.
    ghost predicate Valid()
      reads this
    {
      buffered == Rest(stream) && Matched(Frames(stream))
    }

    // What calls and frames have made of each other once the frames `all` were split off.
    ghost predicate Matched(all: seq<bytes>)
      reads `frames, `waiting, `settled, `calls, `expired
    {
      && frames == (if calls < |all| then all[calls..] else [])
      && waiting == UpTo(|all|, calls)
      && (forall i :: i in expired ==> i < calls)
      && (forall i: nat :: i in settled <==> i < calls && (i in expired || i < |all|))
      && (forall i: nat :: i in settled ==> settled[i] == if i in expired then TimedOut else Received(all[i]))
    }

    constructor ()
      ensures Valid() && stream == [] && calls == 0 && expired == {}
    {
      buffered, frames, waiting, settled, calls := [], [], [], map[], 0;
      stream, expired := [], {};
    }

    method OnData(chunk: bytes)
      requires Valid()
      modifies this
      ensures Valid() && stream == old(stream) + chunk && calls == old(calls) && expired == old(expired)
    {
      hide U32BE, Frames, Rest, Matched;
      FramesAppend(stream, chunk);
      ghost var all := Frames(stream);
      buffered := buffered + chunk;
      while HasFrame(buffered)
        invariant calls == old(calls) && expired == old(expired) && stream == old(stream)
        invariant Frames(stream + chunk) == all + Frames(buffered) && Rest(stream + chunk) == Rest(buffered)
        invariant Matched(all)
        decreases |buffered|
      {
        FramesOf(buffered);
        var frame := buffered[4..U32BE(buffered) + 4];
        buffered := buffered[U32BE(buffered) + 4..];
        assert all + ([frame] + Frames(buffered)) == (all + [frame]) + Frames(buffered);
        Deliver(frame, all);
        all := all + [frame];
      }
      FramesOf(buffered);
      assert all + [] == all;
      stream := stream + chunk;
    }

    // One frame goes to the call that waits longest, or is kept for the next one. A promise that its
    // timer already rejected stays rejected.
    method Deliver(frame: bytes, ghost all: seq<bytes>)
      requires Matched(all)
      modifies `frames, `waiting, `settled
      ensures Matched(all + [frame])
    {
      if waiting == [] {
        frames := frames + [frame];
      } else {
        var receiver := waiting[0];
        waiting := waiting[1..];
        if receiver !in settled {
          settled := settled[receiver := Received(frame)];
        }
      }
    }

    // A call returns the number of its promise.
    method Read() returns (call: nat)
      requires Valid()
      modifies this
      ensures Valid() && call == old(calls) && calls == old(calls) + 1
      ensures stream == old(stream) && expired == old(expired)
    {
      hide Frames, Rest;
      call := calls;
      calls := calls + 1;
      if frames != [] {
        settled := settled[call := Received(frames[0])];
        frames := frames[1..];
      } else {
        waiting := waiting + [call];
      }
    }

    // The timer of a call that has not got its frame runs out; the call stays in the queue.
    method OnTimeout(call: nat)
      requires Valid() && call in waiting
      modifies this
      ensures Valid() && expired == old(expired) + {call} && stream == old(stream) && calls == old(calls)
    {
      hide Frames, Rest;
      if call !in settled {
        settled := settled[call := TimedOut];
      }
      expired := expired + {call};
    }
  }
}

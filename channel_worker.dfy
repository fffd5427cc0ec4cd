/** The audio channel worker: `splitChannels` de-interleaves a flat sample
    buffer (`[ch0, ch1, ch0, ch1, ...]`) into one buffer per channel, and the
    worker's message handler keeps a key/value storage that `store` and
    `precompute` messages write and `compute` and `getStorage` messages answer
    from. Samples are opaque values; their float representation is not modelled. */
module ChannelWorker {
  import opened Common

  // ---------------------------------------------------------------------------
  // Arithmetic on sample positions

  lemma {:induction false} MulLeft(a: int, b: int, n: int)
    requires n >= 0
    ensures a <= b ==> a * n <= b * n
  {
    assert b * n - a * n == (b - a) * n;
  }

  /** Position `j` of channel `c` is sample `j * n + c`, and nothing else is. */
  lemma {:induction false} DivModOf(i: int, n: int, j: int, c: int)
    requires n > 0 && 0 <= c < n && j >= 0 && i == j * n + c
    ensures i / n == j && i % n == c
  {
    var q, r := i / n, i % n;
    assert i == q * n + r && 0 <= r < n;
    assert (q + 1) * n == q * n + n;
    assert (j + 1) * n == j * n + n;
    MulLeft(q + 1, j, n);
    MulLeft(j + 1, q, n);
  }

  /** Two samples never share a channel position. */
  lemma {:induction false} DistinctSlots(i: nat, s: nat, n: nat)
    requires n > 0 && i != s
    ensures i % n != s % n || i / n != s / n
  {
    assert i == (i / n) * n + i % n && s == (s / n) * n + s % n;
  }

  /** Every position of a channel buffer of length `len / n` has its sample. */
  lemma {:induction false} SlotInRange(len: nat, n: nat, j: nat, c: nat)
    requires n > 0 && c < n && j < len / n
    ensures j * n + c < len
  {
    var q := len / n;
    assert len == q * n + len % n;
    MulLeft(j + 1, q, n);
    assert (j + 1) * n == j * n + n;
  }

  // ---------------------------------------------------------------------------
  // splitChannels

  /** Channel `c` of an interleaved buffer: the `c`-th sample of every complete
      frame of `channelCount` samples. */
  function Channel<T>(value: seq<T>, channelCount: nat, c: nat): (ch: seq<T>)
    requires c < channelCount
    ensures |ch| == |value| / channelCount
  {
    seq(|value| / channelCount,
        j requires 0 <= j < |value| / channelCount =>
          SlotInRange(|value|, channelCount, j, c); value[j * channelCount + c])
  }

  /** What `splitChannels({value, channelCount})` returns, as values. With no
      channels, an empty buffer gives no buffers and a non-empty one throws
      (the first sample is written into `channels[NaN]`, which is undefined). */
  function Split<T>(value: seq<T>, channelCount: nat): Outcome<seq<seq<T>>>
  {
    if channelCount == 0 then (if |value| == 0 then Return([]) else Throw)
    else Return(seq(channelCount, c requires 0 <= c < channelCount => Channel(value, channelCount, c)))
  }

  /** The contents of the buffers. */
  function Contents<T>(channels: seq<array<T>>): seq<seq<T>>
    reads set c | 0 <= c < |channels| :: channels[c]
  {
    seq(|channels|, c requires 0 <= c < |channels| reads set k | 0 <= k < |channels| :: channels[k] => channels[c][..])
  }

  /** `channels[c] = new Float32Array(length)` for each channel. */
  method NewChannels<T(0)>(channelCount: nat, length: nat) returns (channels: seq<array<T>>)
    ensures |channels| == channelCount
    ensures forall k :: 0 <= k < channelCount ==> fresh(channels[k]) && channels[k].Length == length
    ensures forall k, l :: 0 <= k < l < channelCount ==> channels[k] != channels[l]
  {
    channels := [];
    for c := 0 to channelCount
      invariant |channels| == c
      invariant forall k :: 0 <= k < c ==> fresh(channels[k]) && channels[k].Length == length
      invariant forall k, l :: 0 <= k < l < c ==> channels[k] != channels[l]
    {
      var buffer := new T[length];
      channels := channels + [buffer];
    }
  }

  /** `splitChannels`: one new buffer per channel, each `value.length /
      channelCount` long (the typed-array constructor truncates), sample `i`
      written to buffer `i % channelCount` at `floor(i / channelCount)`; the
      samples of an incomplete last frame fall beyond the buffers' ends, where
      typed-array writes are ignored. */
  method SplitChannels<T(0)>(value: seq<T>, channelCount: nat) returns (r: Outcome<seq<array<T>>>)
    ensures r.Return? <==> Split(value, channelCount).Return?
    ensures r.Return? ==> Contents(r.value) == Split(value, channelCount).value
    ensures r.Return? ==> forall c :: 0 <= c < |r.value| ==> fresh(r.value[c])
    ensures r.Return? ==> forall c, d :: 0 <= c < d < |r.value| ==> r.value[c] != r.value[d]
  {
    if channelCount == 0 {
      // No buffers are made; the first sample, if any, is written into
      // `channels[NaN]`, which is undefined.
      if |value| > 0 {
        return Throw;
      }
      return Return([]);
    }
    var length := |value| / channelCount;
    var channels := NewChannels<T>(channelCount, length);
    for sample := 0 to |value|
      invariant forall k :: 0 <= k < channelCount ==> fresh(channels[k]) && channels[k].Length == length
      invariant forall i :: 0 <= i < sample ==> Written(value, channelCount, channels, i)
    {
      label before:
      var channel := sample % channelCount;
      var channelIndex := sample / channelCount;
      if channelIndex < length {
        channels[channel][channelIndex] := value[sample];
      }
      forall i | 0 <= i < sample + 1 ensures Written(value, channelCount, channels, i) {
        if i < sample {
          DistinctSlots(i, sample, channelCount);
          assert old@before(Written(value, channelCount, channels, i));
        }
      }
    }
    FilledChannels(value, channelCount, channels);
    return Return(channels);
  }

  /** Sample `i` sits at channel `i % n`, position `i / n`, when that position exists. */
  ghost predicate Placed<T>(value: seq<T>, n: nat, contents: seq<seq<T>>, i: nat)
    requires n > 0 && i < |value| && |contents| == n
    requires forall c :: 0 <= c < n ==> |contents[c]| == |value| / n
  {
    i / n < |value| / n ==> contents[i % n][i / n] == value[i]
  }

  lemma {:induction false} SlotPlaced<T>(value: seq<T>, n: nat, contents: seq<seq<T>>, c: nat, j: nat)
    requires n > 0 && c < n && j < |value| / n && |contents| == n
    requires forall c :: 0 <= c < n ==> |contents[c]| == |value| / n
    requires j * n + c < |value| && Placed(value, n, contents, j * n + c)
    ensures contents[c][j] == value[j * n + c]
  {
    DivModOf(j * n + c, n, j, c);
  }

  /** Buffers holding sample `i` at channel `i % n`, position `i / n`, for
      every sample that fits, are the split. */
  lemma {:induction false} SlotsMakeChannels<T>(value: seq<T>, n: nat, contents: seq<seq<T>>)
    requires n > 0 && |contents| == n
    requires forall c :: 0 <= c < n ==> |contents[c]| == |value| / n
    requires forall i :: 0 <= i < |value| ==> Placed(value, n, contents, i)
    ensures contents == Split(value, n).value
  {
    forall c | 0 <= c < n ensures contents[c] == Channel(value, n, c) {
      forall j | 0 <= j < |value| / n ensures contents[c][j] == Channel(value, n, c)[j] {
        SlotInRange(|value|, n, j, c);
        SlotPlaced(value, n, contents, c, j);
      }
    }
  }

  /** Sample `i` has been written to channel `i % n` at `i / n`, when that
      position exists. */
  ghost predicate Written<T>(value: seq<T>, n: nat, channels: seq<array<T>>, i: nat)
    requires n > 0 && |channels| == n && i < |value|
    requires forall k :: 0 <= k < n ==> channels[k].Length == |value| / n
    reads set k | 0 <= k < n :: channels[k]
  {
    i / n < |value| / n ==> channels[i % n][i / n] == value[i]
  }

  /** Buffers filled as the loop of `splitChannels` fills them hold the split. */
  lemma {:induction false} FilledChannels<T>(value: seq<T>, n: nat, channels: seq<array<T>>)
    requires n > 0 && |channels| == n
    requires forall k :: 0 <= k < n ==> channels[k].Length == |value| / n
    requires forall i :: 0 <= i < |value| ==> Written(value, n, channels, i)
    ensures Contents(channels) == Split(value, n).value
  {
    var contents := Contents(channels);
    forall i | 0 <= i < |value| ensures Placed(value, n, contents, i) {
      assert Written(value, n, channels, i);
      if i / n < |value| / n {
        assert contents[i % n] == channels[i % n][..];
      }
    }
    SlotsMakeChannels(value, n, contents);
  }

  /** The inverse of splitting: frame by frame, one sample from each channel. */
  function Interleave<T>(channels: seq<seq<T>>, frames: nat): (value: seq<T>)
    requires |channels| > 0 && forall c :: 0 <= c < |channels| ==> |channels[c]| >= frames
    ensures |value| == frames * |channels|
  {
    seq(frames * |channels|,
        i requires 0 <= i < frames * |channels| =>
          FrameOf(i, frames, |channels|); channels[i % |channels|][i / |channels|])
  }

  lemma {:induction false} FrameOf(i: nat, frames: nat, n: nat)
    requires n > 0 && i < frames * n
    ensures i / n < frames
  {
    assert i == (i / n) * n + i % n;
    if i / n >= frames {
      MulLeft(frames, i / n, n);
    }
  }

  /** Sample `i` of a buffer made of whole frames lands in channel `i % n` at
      position `i / n`, and re-interleaving the channels gives the buffer back. */
  lemma {:induction false} SplitInterleave<T>(value: seq<T>, channelCount: nat)
    requires channelCount > 0 && |value| % channelCount == 0
    ensures var chs := Split(value, channelCount).value;
      (forall i :: 0 <= i < |value| ==> chs[i % channelCount][i / channelCount] == value[i])
      && Interleave(chs, |value| / channelCount) == value
  {
    SplitPlacesAll(value, channelCount);
    InterleaveSplit(value, channelCount);
  }

  lemma {:induction false} SplitPlacesAll<T>(value: seq<T>, channelCount: nat)
    requires channelCount > 0 && |value| % channelCount == 0
    ensures forall i :: 0 <= i < |value| ==>
      i / channelCount < |value| / channelCount
      && Split(value, channelCount).value[i % channelCount][i / channelCount] == value[i]
  {
    var frames := |value| / channelCount;
    assert |value| == frames * channelCount + |value| % channelCount;
    forall i | 0 <= i < |value|
      ensures i / channelCount < frames && Split(value, channelCount).value[i % channelCount][i / channelCount] == value[i]
    {
      SplitPlaces(value, channelCount, frames, i);
    }
  }

  lemma {:induction false} InterleaveSplit<T>(value: seq<T>, channelCount: nat)
    requires channelCount > 0 && |value| % channelCount == 0
    ensures Interleave(Split(value, channelCount).value, |value| / channelCount) == value
  {
    var chs := Split(value, channelCount).value;
    var frames := |value| / channelCount;
    assert |value| == frames * channelCount + |value| % channelCount;
    var back := Interleave(chs, frames);
    forall i | 0 <= i < |value| ensures back[i] == value[i] {
      SplitPlaces(value, channelCount, frames, i);
      InterleaveAt(chs, frames, i);
    }
  }

  lemma {:induction false} InterleaveAt<T>(channels: seq<seq<T>>, frames: nat, i: nat)
    requires |channels| > 0 && forall c :: 0 <= c < |channels| ==> |channels[c]| >= frames
    requires i < frames * |channels|
    ensures i / |channels| < frames
    ensures Interleave(channels, frames)[i] == channels[i % |channels|][i / |channels|]
  {
    FrameOf(i, frames, |channels|);
  }

  /** Sample `i` of a buffer of `frames` whole frames is at channel `i % n`,
      position `i / n`, of the split. */
  lemma {:induction false} SplitPlaces<T>(value: seq<T>, n: nat, frames: nat, i: nat)
    requires n > 0 && |value| == frames * n && frames == |value| / n && i < |value|
    ensures i / n < frames && Split(value, n).value[i % n][i / n] == value[i]
  {
    var j, c := i / n, i % n;
    assert i == j * n + c;
    FrameOf(i, frames, n);
    assert Split(value, n).value[c] == Channel(value, n, c);
  }

  /** Each position of each channel of the split holds exactly one sample of
      the buffer: the loop writes sample `j * channelCount + c` (and no other
      sample) to channel `c`, position `j`, and that sample is what the split
      holds there. */
  lemma {:induction false} EachSlotOnce<T>(value: seq<T>, channelCount: nat, c: nat, j: nat)
    requires c < channelCount && j < |value| / channelCount
    ensures j * channelCount + c < |value|
    ensures Split(value, channelCount).value[c][j] == value[j * channelCount + c]
    ensures (j * channelCount + c) % channelCount == c && (j * channelCount + c) / channelCount == j
    ensures forall i :: 0 <= i < |value| && i % channelCount == c && i / channelCount == j ==> i == j * channelCount + c
  {
    SlotInRange(|value|, channelCount, j, c);
    DivModOf(j * channelCount + c, channelCount, j, c);
    forall i | 0 <= i < |value| && i % channelCount == c && i / channelCount == j
      ensures i == j * channelCount + c
    {
      assert i == (i / channelCount) * channelCount + i % channelCount;
    }
  }

  /** With two channels, samples 8, 9, 10 and 11 go to channels 0, 1, 0, 1 at
      positions 4, 4, 5, 5. */
  lemma {:induction false} TwoChannelExample<T>(value: seq<T>)
    requires |value| >= 12
    ensures Split(value, 2).value[0][4] == value[8] && Split(value, 2).value[1][4] == value[9]
    ensures Split(value, 2).value[0][5] == value[10] && Split(value, 2).value[1][5] == value[11]
  {
    assert |value| / 2 >= 6;
  }

  // ---------------------------------------------------------------------------
  // The worker's message handler

  /** A value the worker's storage or a message payload holds. */
  datatype Stored<T> =
    | Samples(samples: seq<T>)         // an interleaved sample buffer
    | Count(count: nat)                // a channel count
    | Channels(channels: seq<seq<T>>)  // the result of a split
    | Other(other: Val)

  type Record<T> = map<string, Stored<T>>

  /** A message's `data`, `type` and `eventId`; `data` is `None` when undefined or null. */
  datatype Message<T> = Message(data: Option<Record<T>>, kind: string, eventId: Val)

  /** A message the worker posts back. */
  datatype Reply<T> = Reply(result: Record<T>, eventId: Val)

  /** How the split callbacks read their payload `{value, channelCount}`; a
      payload without a sample buffer and a channel count throws. */
  function SplitRequest<T>(data: Option<Record<T>>): Outcome<Outcome<seq<seq<T>>>>
  {
    if data.Some? && "value" in data.value && data.value["value"].Samples?
       && "channelCount" in data.value && data.value["channelCount"].Count?
    then Return(Split(data.value["value"].samples, data.value["channelCount"].count))
    else Throw
  }

  /** The split a payload asks for, when it can be made. */
  function SplitOf<T>(data: Option<Record<T>>): Option<seq<seq<T>>>
  {
    var request := SplitRequest(data);
    if request.Return? && request.value.Return? then Some(request.value.value) else None
  }

  /** The storage and the replies after one message. A falsy message, an
      unknown type, or a split that throws changes nothing. */
  function Handle<T>(storage: Record<T>, message: Option<Message<T>>): (Record<T>, seq<Reply<T>>)
  {
    if message.None? then (storage, [])
    else
      var m := message.value;
      if m.kind == "compute" then
        match SplitOf(m.data)
        case Some(chs) => (storage, [Reply(map["data" := Channels(chs)], m.eventId)])
        case None => (storage, [])
      else if m.kind == "precompute" then
        match SplitOf(m.data)
        case Some(chs) => (storage["data" := Channels(chs)], [])
        case None => (storage, [])
      else if m.kind == "store" then
        (if m.data.Some? then storage + m.data.value else storage, [])
      else if m.kind == "getStorage" then
        (storage, [Reply(storage, m.eventId)])
      else (storage, [])
  }

  /** A `store` merges its payload's keys into the storage, the payload's value
      winning on a shared key, and keeps every other key. */
  lemma {:induction false} StoreMerges<T>(storage: Record<T>, data: Record<T>, eventId: Val, k: string)
    ensures var (s, replies) := Handle(storage, Some(Message(Some(data), "store", eventId)));
      replies == []
      && (k in s <==> k in storage || k in data)
      && (k in data ==> s[k] == data[k])
      && (k !in data && k in storage ==> s[k] == storage[k])
  {
  }

  /** A `compute` answers once, with the split under `data` and the request's
      event id, and leaves the storage alone. */
  lemma {:induction false} ComputeReplies<T>(storage: Record<T>, value: seq<T>, channelCount: nat, eventId: Val)
    requires channelCount > 0
    ensures var data := map["value" := Samples(value), "channelCount" := Count(channelCount)];
      Handle(storage, Some(Message(Some(data), "compute", eventId)))
        == (storage, [Reply(map["data" := Channels(Split(value, channelCount).value)], eventId)])
  {
    var data := map["value" := Samples(value), "channelCount" := Count(channelCount)];
    assert "value" in data && "channelCount" in data;
  }

  /** A `precompute` answers nothing and stores the split under `data`. */
  lemma {:induction false} PrecomputeStores<T>(storage: Record<T>, value: seq<T>, channelCount: nat, eventId: Val)
    requires channelCount > 0
    ensures var data := map["value" := Samples(value), "channelCount" := Count(channelCount)];
      var (s, replies) := Handle(storage, Some(Message(Some(data), "precompute", eventId)));
      replies == [] && s == storage["data" := Channels(Split(value, channelCount).value)]
  {
    var data := map["value" := Samples(value), "channelCount" := Count(channelCount)];
    assert "value" in data && "channelCount" in data;
  }

  /** Only `compute` and `getStorage` answer, once each, with the request's
      event id; only `store` and `precompute` change the storage. */
  lemma {:induction false} RepliesAndWrites<T>(storage: Record<T>, message: Option<Message<T>>)
    ensures var (s, replies) := Handle(storage, message);
      |replies| <= 1
      && (|replies| == 1 ==> message.Some? && message.value.kind in {"compute", "getStorage"}
                             && replies[0].eventId == message.value.eventId)
      && (s != storage ==> message.Some? && message.value.kind in {"store", "precompute"})
      && (message.Some? && message.value.kind == "getStorage" ==> replies == [Reply(storage, message.value.eventId)])
  {
  }

  /** The worker side of the channel, with the split callbacks installed
      (`Messenger.receive({compute, precompute})`). */
  class Messenger<T(0)> {
    var storage: Record<T>
    /** Messages posted back to the page, oldest first. */
    var outbox: seq<Reply<T>>

    constructor()
      ensures storage == map[] && outbox == []
    {
      storage := map[];
      outbox := [];
    }

    /** Runs the split for the split callbacks; a payload it cannot read, or a
        split that throws, throws. */
    method RunSplit(data: Option<Record<T>>) returns (r: Option<seq<seq<T>>>)
      ensures r == SplitOf(data)
    {
      if !(data.Some? && "value" in data.value && data.value["value"].Samples?
           && "channelCount" in data.value && data.value["channelCount"].Count?) {
        return None;
      }
      var channels := SplitChannels(data.value["value"].samples, data.value["channelCount"].count);
      if channels.Throw? {
        return None;
      }
      return Some(Contents(channels.value));
    }

    /** The message listener. */
    method Receive(message: Option<Message<T>>)
      modifies this
      ensures storage == Handle(old(storage), message).0
      ensures outbox == old(outbox) + Handle(old(storage), message).1
    {
      if message.None? {
        return;
      }
      var m := message.value;
      match m.kind
      case "compute" =>
        var result := RunSplit(m.data);
        if result.Some? {
          outbox := outbox + [Reply(map["data" := Channels(result.value)], m.eventId)];
        }
      case "precompute" =>
        var result := RunSplit(m.data);
        if result.Some? {
          storage := storage["data" := Channels(result.value)];
        }
      case "store" =>
        assert m.kind != "compute" && m.kind != "precompute";
        if m.data.Some? {
          storage := storage + m.data.value;
        }
      case "getStorage" =>
        assert m.kind != "compute" && m.kind != "precompute" && m.kind != "store";
        outbox := outbox + [Reply(storage, m.eventId)];
      case _ =>
    }
  }
}

/** `DynamicBuffer`, `ChunkWriter` and `AudioService` as objects, proved against the step relation. */
module AudioService {
  import opened Common
  import opened SampleFormat
  import opened AudioPipeline

  /** A vector whose first `committed` bytes are a queue and whose rest is room to write into. */
  class DynamicBuffer {
    var data: seq<Byte>
    var committed: nat

    ghost predicate Valid()
      reads this
    {
      committed <= |data|
    }

    ghost function Contents(): seq<Byte>
      requires Valid()
      reads this
    {
      data[..committed]
    }

    ghost function Room(): seq<Byte>
      requires Valid()
      reads this
    {
      data[committed..]
    }

    constructor ()
      ensures Valid() && Contents() == [] && Room() == []
    {
      data, committed := [], 0;
    }

    method Reset()
      requires Valid()
      modifies this
      ensures Valid() && Contents() == [] && Room() == old(Contents()) + old(Room())
    {
      committed := 0;
    }

    /** At least `n` bytes to write into; what is committed or already there stays. */
    method Prepare(n: nat)
      requires Valid()
      modifies this
      ensures Valid() && Contents() == old(Contents())
      ensures |Room()| == (if n > |old(Room())| then n else |old(Room())|) && old(Room()) <= Room()
    {
      var capacity := |data| - committed;
      if n > capacity {
        data := data + seq(n - capacity, _ => 0);
      }
    }

    /** `std::copy` to the front of the span that `prepare` returned. */
    method CopyIn(bytes: seq<Byte>)
      requires Valid() && |bytes| <= |Room()|
      modifies this
      ensures Valid() && Contents() == old(Contents()) && Room() == bytes + old(Room())[|bytes|..]
    {
      data := data[..committed] + bytes + data[committed + |bytes|..];
    }

    method Commit(n: nat)
      requires Valid() && n <= |Room()|
      modifies this
      ensures Valid() && Contents() == old(Contents()) + old(Room())[..n] && Room() == old(Room())[n..]
    {
      committed := committed + n;
    }

    method Consume(n: nat)
      requires Valid() && n <= |Contents()|
      modifies this
      ensures Valid() && Contents() == old(Contents())[n..] && Room() == old(Room())
    {
      data := data[n..];
      committed := committed - n;
    }

    /** What `on_process` does to each channel. */
    method Append(bytes: seq<Byte>)
      requires Valid()
      modifies this
      ensures Valid() && Contents() == old(Contents()) + bytes
    {
      Prepare(|bytes|);
      CopyIn(bytes);
      Commit(|bytes|);
    }
  }

  ghost predicate Separate(buffers: seq<DynamicBuffer>)
    reads buffers
  {
    && (forall i, j :: 0 <= i < j < |buffers| ==> buffers[i] != buffers[j])
    && (forall i :: 0 <= i < |buffers| ==> buffers[i].Valid())
  }

  ghost function AllContents(buffers: seq<DynamicBuffer>): seq<seq<Byte>>
    requires Separate(buffers)
    reads buffers
  {
    seq(|buffers|, i requires 0 <= i < |buffers| && buffers[i].Valid() reads buffers => buffers[i].Contents())
  }

  class ChunkWriter {
    const format: SampleFormat
    const frameSize: nat
    var totalSamplesWritten: nat
    var frames: seq<Frame>          // the frames handed to the encoder

    constructor (format: SampleFormat, frameSize: nat)
      ensures this.format == format && this.frameSize == frameSize && totalSamplesWritten == 0 && frames == []
    {
      this.format, this.frameSize := format, frameSize;
      totalSamplesWritten, frames := 0, [];
    }

    ghost function NumBytes(): nat {
      FrameBytes(Config(format, frameSize))
    }

    /** `ChunkWriter::operator()` on a chunk that passed the check on its sample count. */
    method Write(buffers: seq<DynamicBuffer>)
      requires Separate(buffers)
      requires forall i :: 0 <= i < |buffers| ==> NumBytes() <= |buffers[i].Contents()|
      modifies this
      ensures totalSamplesWritten == old(totalSamplesWritten) + frameSize
      ensures frames == old(frames) + [Frame(old(totalSamplesWritten), Heads(AllContents(buffers), NumBytes()))]
    {
      var pts := totalSamplesWritten;
      totalSamplesWritten := totalSamplesWritten + frameSize;
      var numBytes := BytesPerFrame(format, frameSize);
      var payload := CopyHeads(buffers, numBytes);
      frames := frames + [Frame(pts, payload)];
    }

    /** The same, thrown out of while it prepares the frame, or, if `late`, while it allocates its
        buffer or hands it on. */
    method WriteThrows(late: bool)
      modifies this
      ensures totalSamplesWritten == old(totalSamplesWritten) + (if late then frameSize else 0) && frames == old(frames)
    {
      if late { totalSamplesWritten := totalSamplesWritten + frameSize; }
    }
  }

  /** The copy loop of the chunk writer. */
  method CopyHeads(buffers: seq<DynamicBuffer>, numBytes: nat) returns (payload: seq<seq<Byte>>)
    requires Separate(buffers) && forall i :: 0 <= i < |buffers| ==> numBytes <= |buffers[i].Contents()|
    ensures payload == Heads(AllContents(buffers), numBytes)
  {
    payload := [];
    for n := 0 to |buffers|
      invariant |payload| == n
      invariant forall i :: 0 <= i < n ==> payload[i] == buffers[i].Contents()[..numBytes]
    {
      payload := payload + [buffers[n].data[..numBytes]];
    }
  }

  /** The loop of `prepare_buffer_channels`. */
  method AddChannels(first: DynamicBuffer, count: nat) returns (buffers: seq<DynamicBuffer>)
    requires count >= 1 && first.Valid() && first.Contents() == []
    ensures |buffers| == count && Separate(buffers) && buffers[0] == first
    ensures forall i :: 0 <= i < count ==> buffers[i].Contents() == [] && (buffers[i] == first || fresh(buffers[i]))
  {
    buffers := [first];
    while count != |buffers|
      invariant 1 <= |buffers| <= count && Separate(buffers) && buffers[0] == first
      invariant forall i :: 0 <= i < |buffers| ==> buffers[i].Contents() == []
      invariant forall i :: 0 <= i < |buffers| ==> buffers[i] == first || fresh(buffers[i])
      decreases count - |buffers|
    {
      var next := new DynamicBuffer();
      buffers := buffers + [next];
    }
  }

  /** `prepare_buffer_channels`: one empty buffer if interleaved, else one for each channel. */
  method PrepareChannels(format: SampleFormat) returns (buffers: seq<DynamicBuffer>)
    ensures fresh(buffers) && Separate(buffers) && |buffers| == BufferCount(format)
    ensures AllContents(buffers) == seq(BufferCount(format), _ => [])
  {
    var first := new DynamicBuffer();
    if IsInterleaved(format) {
      buffers := [first];
    } else {
      buffers := AddChannels(first, 2);
    }
  }

  method CompleteFrames(samples: nat, frameSize: nat) returns (frames: nat)
    requires frameSize > 0
    ensures frames == Quotient(samples, frameSize)
  {
    QuotientIsDivision(samples, frameSize);
    frames := samples / frameSize;
  }

  /** The bytes of a frame in one channel buffer, as `dispatch_chunks` and the writer count them. */
  method BytesPerFrame(format: SampleFormat, frameSize: nat) returns (numBytes: nat)
    ensures numBytes == FrameBytes(Config(format, frameSize))
  {
    numBytes := if IsInterleaved(format) then SampleSize(format) * frameSize * 2 else SampleSize(format) * frameSize;
  }

  class AudioService {
    const format: SampleFormat
    const frameSize: nat
    const writer: ChunkWriter                 // the chunk listener
    var channels: seq<DynamicBuffer>
    var sampleCount: nat
    var counter: nat                          // the eventfd
    var claimed: nat                          // `num_frames` of the dispatch in progress
    var failed: bool                          // a contract check has ended the program
    var aborted: bool                         // the chunk listener threw
    ghost var captured: seq<seq<Byte>>
    ghost var debt: nat
    ghost var dropped: nat

    ghost function Settings(): Config {
      Config(format, frameSize)
    }

    ghost predicate Sane()
      reads this, writer, channels
    {
      && ValidConfig(Settings()) && writer.format == format && writer.frameSize == frameSize
      && Separate(channels) && |channels| == |captured|
    }

    ghost predicate Valid()
      reads this, writer, channels
    {
      Sane() && Coupled(Settings(), Value())
    }

    /** The state of the step relation that this object is in. */
    ghost function Value(): State
      requires Separate(channels)
      reads this, writer, channels
    {
      State(AllContents(channels), sampleCount, counter, claimed, writer.frames, writer.totalSamplesWritten,
            failed, aborted, captured, debt, dropped)
    }

    constructor (format: SampleFormat, frameSize: nat)
      requires frameSize > 0
      ensures Valid() && this.format == format && this.frameSize == frameSize
      ensures Value() == Init(Settings()) && fresh(writer) && fresh(channels)
    {
      this.format, this.frameSize := format, frameSize;
      writer := new ChunkWriter(format, frameSize);
      sampleCount, counter, claimed, failed, aborted, debt, dropped := 0, 0, 0, false, false, 0, 0;
      captured := seq(BufferCount(format), _ => []);
      var buffers := PrepareChannels(format);
      channels := buffers;
      new;
      assert Sane();
      assert Value() == Init(Settings());
    }

    /** The loop of `on_process` over the channels, which hold `before`. */
    method AppendEach(datas: seq<seq<Byte>>, ghost before: seq<seq<Byte>>)
      requires Holds(before) && |datas| == |channels|
      modifies channels
      ensures Holds(Appended(before, datas))
    {
      for n := 0 to |datas|
        invariant Separate(channels)
        invariant forall i :: 0 <= i < n ==> channels[i].Contents() == before[i] + datas[i]
        invariant forall i :: n <= i < |datas| ==> channels[i].Contents() == before[i]
      {
        channels[n].Append(datas[n]);
      }
    }

    /** Channel buffer `i` holds `contents[i]`. */
    ghost predicate Holds(contents: seq<seq<Byte>>)
      reads this, channels
    {
      && Separate(channels) && |contents| == |channels|
      && forall i :: 0 <= i < |channels| ==> channels[i].Contents() == contents[i]
    }

    method AppendAll(datas: seq<seq<Byte>>)
      requires Separate(channels) && |datas| == |channels|
      modifies channels
      ensures Separate(channels) && AllContents(channels) == Appended(old(AllContents(channels)), datas)
    {
      AppendEach(datas, AllContents(channels));
    }

    /** The sample count of `on_process`, and `notify`. */
    method Announce(numSamples: nat)
      requires frameSize > 0
      modifies this`sampleCount, this`counter, this`debt
      ensures debt == old(debt) + Quotient(old(sampleCount), frameSize)
      ensures sampleCount == old(sampleCount) + numSamples
      ensures counter == old(counter) + if sampleCount >= frameSize then Quotient(sampleCount, frameSize) else 0
    {
      debt := debt + Quotient(sampleCount, frameSize);
      sampleCount := sampleCount + numSamples;
      if sampleCount >= frameSize {
        var frames := CompleteFrames(sampleCount, frameSize);
        counter := counter + frames;
      }
    }

    /** `on_process` once the number of channels has been checked. */
    method Absorb(datas: seq<seq<Byte>>)
      requires Sane() && ValidQuantum(Settings(), datas) && |datas| == |channels|
      modifies this`sampleCount, this`counter, this`captured, this`debt, channels
      ensures Sane() && Value() == Processed(Settings(), old(Value()), datas)
    {
      AppendAll(datas);
      captured := Appended(captured, datas);
      Announce(SampleCount(format, |datas[0]|));
    }

    /** `on_process` with a buffer of `datas`, of which the first tells the length of all. */
    method OnProcess(datas: seq<seq<Byte>>)
      requires Valid() && !failed
      requires datas != [] && forall i :: 0 <= i < |datas| ==> |datas[i]| == |datas[0]|
      modifies this`sampleCount, this`counter, this`failed, this`captured, this`debt, channels
      ensures Valid()
      ensures failed <==> |datas| != BufferCount(format)
      ensures failed ==> Value() == old(Value()).(failed := true)
      ensures !failed ==> Value() == Processed(Settings(), old(Value()), datas)
      ensures !failed ==> |datas| == |channels| && sampleCount == old(sampleCount) + SampleCount(format, |datas[0]|)
      ensures !failed ==> forall ch | 0 <= ch < |channels| ::
                channels[ch].Contents() == old(channels[ch].Contents()) + datas[ch]
    {
      if |datas| != |channels| {
        failed := true;
      } else {
        CoupledProcess(Settings(), Value(), datas);
        Absorb(datas);
        assert forall ch | 0 <= ch < |channels| :: Value().buffers[ch] == channels[ch].Contents();
      }
    }

    /** The loop of `dispatch_chunks` over the channels, which hold `before`: an interleaved chunk has
        only the first. */
    method ConsumeEach(numBytes: nat, ghost before: seq<seq<Byte>>)
      requires Holds(before) && |channels| == BufferCount(format)
      requires forall i | 0 <= i < |before| :: numBytes <= |before[i]|
      modifies channels
      ensures Holds(Tails(before, numBytes))
    {
      for n := 0 to |channels|
        invariant Separate(channels)
        invariant forall i :: 0 <= i < n ==> channels[i].Contents() == before[i][numBytes..]
        invariant forall i :: n <= i < |channels| ==> channels[i].Contents() == before[i]
      {
        channels[n].Consume(numBytes);
        if IsInterleaved(format) { break; }
      }
    }

    method ConsumeAll(numBytes: nat)
      requires Separate(channels) && |channels| == BufferCount(format)
      requires forall i :: 0 <= i < |channels| ==> numBytes <= |channels[i].Contents()|
      modifies channels
      ensures Separate(channels) && AllContents(channels) == Tails(old(AllContents(channels)), numBytes)
    {
      ConsumeEach(numBytes, AllContents(channels));
    }

    /** The call of the chunk listener in `dispatch_chunks`. */
    method EmitFrame()
      requires Sane() && Covers(Value(), FrameBytes(Settings()))
      modifies writer
      ensures Sane()
      ensures var s := old(Value());
              Value() == s.(frames := s.frames + [Frame(s.written, Heads(s.buffers, FrameBytes(Settings())))],
                            written := s.written + frameSize)
    {
      assert forall i :: 0 <= i < |channels| ==> Value().buffers[i] == channels[i].Contents();
      writer.Write(channels);
    }

    /** What the check guards: the listener, then the consumption of what it copied. */
    method CutFrame()
      requires Sane() && |channels| == BufferCount(format)
      requires claimed > 0 && sampleCount >= frameSize && Covers(Value(), FrameBytes(Settings()))
      modifies this`sampleCount, this`claimed, writer, channels
      ensures Sane() && Value() == Taken(Settings(), old(Value()))
    {
      EmitFrame();
      var numBytes := BytesPerFrame(format, frameSize);
      DropBytes(numBytes);
      Settle();
    }

    method DropBytes(numBytes: nat)
      requires Sane() && |channels| == BufferCount(format) && Covers(Value(), numBytes)
      modifies channels
      ensures Sane() && Value() == old(Value()).(buffers := Tails(old(Value()).buffers, numBytes))
    {
      assert forall i :: 0 <= i < |channels| ==> Value().buffers[i] == channels[i].Contents();
      ConsumeAll(numBytes);
    }

    method Settle()
      requires Sane() && claimed > 0 && sampleCount >= frameSize
      modifies this`sampleCount, this`claimed
      ensures Sane() && Value() == old(Value()).(samples := old(sampleCount) - frameSize, claimed := old(claimed) - 1)
    {
      sampleCount := sampleCount - frameSize;
      claimed := claimed - 1;
    }

    /** One turn of the loop of `dispatch_chunks`. */
    method TakeFrame()
      requires Valid() && claimed > 0 && !failed && !aborted
      modifies this`sampleCount, this`claimed, this`failed, writer, channels
      ensures Valid() && Enabled(Settings(), old(Value()), Take)
      ensures Value() == Apply(Settings(), old(Value()), Take)
    {
      if sampleCount < frameSize {
        failed := true;
      } else {
        FrameFits(Settings(), Value());
        CoupledTake(Settings(), Value());
        CutFrame();
      }
    }

    /** A turn in which the listener throws: the exception leaves the loop. */
    method Abort(late: bool)
      requires Valid() && claimed > 0 && sampleCount >= frameSize && !failed && !aborted
      modifies this`claimed, this`aborted, this`dropped, writer
      ensures Valid() && Value() == Thrown(Settings(), old(Value()), late)
      ensures aborted && claimed == 0 && dropped == old(dropped) + old(claimed)
      ensures AllContents(channels) == old(AllContents(channels)) && writer.frames == old(writer.frames)
    {
      writer.WriteThrows(late);
      dropped := dropped + claimed;
      aborted, claimed := true, 0;
      assert AllContents(channels) == old(AllContents(channels));
    }

    /** `dispatch_chunks`, undisturbed: what the consumer of the step relation does alone. */
    method DispatchChunks(listener: Listener)
      requires Valid() && !failed && !aborted && claimed == 0 && counter > 0
      modifies this`counter, this`sampleCount, this`claimed, this`failed, this`aborted, this`dropped, writer, channels
      ensures Valid() && Value() == Consume(Settings(), old(Value()), listener)
    {
      claimed, counter := counter, 0;
      ghost var goal := Consume(Settings(), Value(), listener);
      var f := listener;
      while claimed > 0 && !failed && !aborted
        invariant Valid() && counter == 0 && Consume(Settings(), Value(), f) == goal
        decreases claimed, !failed
      {
        if sampleCount >= frameSize && f.Throws? && f.after == 0 {
          Abort(f.late);
        } else {
          if sampleCount >= frameSize { f := OneLess(f); }
          TakeFrame();
        }
      }
    }
  }
}

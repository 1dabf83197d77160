/** The repacketising stream as it runs. */
module ProgramStream {
  import opened Common
  import opened ProgramModel
  import opened ProgramZero

  /** What one read of the transport stream gives: an error, or some bytes. */
  datatype Chunk = Failed(rc: nat) | Got(data: seq<Byte>)

  /** The packets that will be taken from what is left to read. */
  function Good(stream: seq<Chunk>): seq<Packet> {
    if stream == [] then []
    else if stream[0].Got? && |stream[0].data| == 188 && stream[0].data[0] == 0x47
    then [stream[0].data] + Good(stream[1..])
    else Good(stream[1..])
  }

  class ProgramStream {
    var stream: seq<Chunk>
    var output: seq<Byte>
    var video: seq<Byte>
    var audio: seq<Byte>
    var videoPid: nat
    var audioPid: nat

    ghost var history: seq<Packet>
    ghost var returned: seq<Byte>

    /** What has been returned and what waits to be are together the output so far. */
    ghost predicate Valid()
      reads this
    {
      && Ran(history) == (Buffers(), returned + output)
      && AllMild(history + Good(stream))
    }

    constructor (stream: seq<Chunk>)
      requires AllMild(Good(stream))
      ensures Valid() && this.stream == stream && history == [] && returned == []
    {
      this.stream := stream;
      output, video, audio := HEADER, [], [];
      videoPid, audioPid := 0, 0;
      history, returned := [], [];
      new;
      assert [] + Good(stream) == Good(stream);
      assert [] + HEADER == HEADER;
    }

    method Read(len: nat) returns (rc: nat, data: seq<Byte>)
      requires Valid()
      modifies this
      ensures Valid() && old(history) <= history
      ensures rc != 0 ==> data == [] && returned == old(returned) && output == []
      ensures rc == 0 ==> returned == old(returned) + data
      ensures rc == 0 ==> |data| <= len && (data == [] ==> len == 0) && (|data| < len ==> output == [])
      ensures Sane(history) ==> returned + output == Stream(history)
    {
      data := [];
      while |output| == 0
        invariant Valid() && returned == old(returned) && old(history) <= history
        decreases |stream|, |output| == 0
      {
        rc := FillOutputBuffer();
        if rc != 0 {
          if Sane(history) { RanIsStream(history); }
          return;
        }
      }
      var lump := if len < |output| then len else |output|;
      data := output[..lump];
      TakeLump(returned, output, lump);
      output := output[lump..];
      returned := returned + data;
      rc := 0;
      if Sane(history) { RanIsStream(history); }
    }

    /** Takes one packet. */
    method FillOutputBuffer() returns (rc: nat)
      requires Valid() && output == []
      modifies this
      ensures Valid() && returned == old(returned) && old(history) <= history
      ensures rc != 0 ==> output == [] && history == old(history)
      ensures rc == 0 ==> |stream| < |old(stream)|
    {
      if |stream| == 0 {
        return EIO;
      }
      var chunk := stream[0];
      ghost var before := history + Good(stream);
      stream := stream[1..];
      if chunk.Failed? || |chunk.data| != 188 || chunk.data[0] != 0x47 {
        if chunk.Got? {
          return if |chunk.data| != 188 then EIO else 0;
        }
        return chunk.rc;
      }
      var buffer: Packet := chunk.data;
      assert history + ([buffer] + Good(stream)) == history + [buffer] + Good(stream);
      assert returned + output == returned;
      Take(buffer);
      rc := 0;
    }

    ghost function Buffers(): State
      reads this
    {
      State(audioPid, videoPid, audio, video)
    }

    method Take(buffer: Packet)
      requires Ran(history) == (Buffers(), returned) && output == [] && AllMild(history + [buffer] + Good(stream))
      modifies this`output, this`video, this`audio, this`videoPid, this`audioPid, this`history
      ensures Valid() && history == old(history) + [buffer]
    {
      MildParts(history, buffer, Good(stream));
      RanFirm(history);
      RanNext(history, buffer);
      Sort(buffer);
      history := history + [buffer];
    }

    /** Finds the packet's stream, flushes what it completes, and keeps its payload. */
    method Sort(buffer: Packet)
      requires output == [] && Mild(buffer) && Firm(Buffers())
      modifies this`output, this`video, this`audio, this`videoPid, this`audioPid
      ensures (Buffers(), output) == Fill(old(Buffers()), buffer)
    {
      var pid: nat := (buffer[1] as nat) % 0x20 * 256 + buffer[2];
      var adaptation := buffer[3] / 0x20 % 2 == 1;
      var at: nat := if adaptation then 5 + buffer[4] as nat else 4;
      var pesdata := buffer[at..];
      if buffer[1] / 0x40 % 2 == 1 {
        var id := pesdata[3];
        if 0xC0 <= id <= 0xDF && audioPid == 0 {
          audioPid := pid;
        } else if 0xE0 <= id <= 0xEF && videoPid == 0 {
          videoPid := pid;
        }
        SendOpen(pid, buffer);
      }
      if pid == audioPid && |audio| < CAP {
        audio := audio + pesdata;
      } else if pid == videoPid && |video| < CAP {
        video := video + pesdata;
      }
    }

    /** The open PES packet of a unit start's stream goes to the output, a zero length of video filled in. */
    method SendOpen(pid: nat, ghost buffer: Packet)
      requires output == [] && Starts(buffer) && pid == Pid(buffer)
      requires video == [] || |video| >= 6 || (pid == audioPid && audio != []) || pid != videoPid
      modifies this`output, this`video, this`audio
      ensures (Buffers(), output) == Flushed(old(Buffers()), buffer)
    {
      if pid == audioPid && audio != [] {
        output, audio := audio, output;
      } else if pid == videoPid && video != [] {
        var length := |video| - 6;
        if video[4] == 0 && video[5] == 0 {
          video := video[4 := length / 256 % 256][5 := length % 256];
        }
        output, video := video, output;
      }
    }
  }

  lemma TakeLump(returned: seq<Byte>, output: seq<Byte>, lump: nat)
    requires lump <= |output|
    ensures returned + output == (returned + output[..lump]) + output[lump..]
  {
  }

  lemma MildParts(h: seq<Packet>, t: Packet, rest: seq<Packet>)
    requires AllMild(h + [t] + rest)
    ensures AllMild(h) && Mild(t)
  {
    var all := h + [t] + rest;
    assert all[|h|] == t && forall i | 0 <= i < |h| :: all[i] == h[i];
  }
}

/** The packets on either side: what is read of a transport packet, and how the PES packets that are
    sent can be told apart again (sections 2.4.3.2 and 2.4.3.6 of ISO/IEC 13818-1). */
module ProgramPackets {
  import opened Common
  import opened ProgramModel

  /* Transport packets */

  /** A transport packet as the standard lays it out; `flags` are the error and priority bits and
      those of scrambling and the counter, of which the stream takes no notice. */
  datatype Transport = Transport(starts: bool, pid: nat, adaptation: Option<seq<Byte>>, payload: seq<Byte>,
                                 failed: bool, priority: bool, scrambling: nat, counter: nat)
  {
    ghost predicate WellFormed() {
      && pid < 0x2000 && scrambling < 4 && counter < 16
      && (adaptation.Some? ==> |adaptation.value| < 0x100)
      && 4 + (if adaptation.Some? then 1 + |adaptation.value| else 0) + |payload| == 188
    }
  }

  function Bit(b: bool, weight: nat): nat {
    if b then weight else 0
  }

  function Laid(x: Transport): Packet
    requires x.WellFormed()
  {
    var control := Bit(x.adaptation.Some?, 2) + Bit(x.payload != [], 1);
    var head: seq<Byte> := [
      0x47,
      Bit(x.failed, 0x80) + Bit(x.starts, 0x40) + Bit(x.priority, 0x20) + x.pid / 256,
      x.pid % 256,
      x.scrambling * 0x40 + control * 0x10 + x.counter];
    head + (if x.adaptation.Some? then [|x.adaptation.value| as Byte] + x.adaptation.value else []) + x.payload
  }

  /** Each part of a packet is found where it was put. */
  lemma ReadsTransport(x: Transport)
    requires x.WellFormed()
    ensures var t := Laid(x);
      && t[0] == 0x47 && Pid(t) == x.pid && (Starts(t) <==> x.starts) && Payload(t) == x.payload && PayloadAt(t) <= 188
  {
    var t := Laid(x);
    HeadBits(x);
    assert Adapted(t) <==> x.adaptation.Some?;
    assert t[188 - |x.payload|..] == x.payload;
  }

  lemma HeadBits(x: Transport)
    requires x.WellFormed()
    ensures var t := Laid(x);
      && t[0] == 0x47 && Pid(t) == x.pid && (Starts(t) <==> x.starts) && (Adapted(t) <==> x.adaptation.Some?)
  {
  }

  /** And so is the kind of a stream, in the byte after the start code of a PES packet. */
  lemma ReadsKind(x: Transport)
    requires x.WellFormed()
    ensures Is(Laid(x), Audio) <==> x.starts && |x.payload| > 3 && 0xC0 <= x.payload[3] <= 0xDF
    ensures Is(Laid(x), Video) <==> x.starts && |x.payload| > 3 && 0xE0 <= x.payload[3] <= 0xEF
  {
    ReadsTransport(x);
  }

  /* PES packets */

  /** The length field of a PES packet: how many bytes are to follow it. */
  function LengthField(s: seq<Byte>): nat
    requires |s| >= 6
  {
    s[4] as nat * 0x100 + s[5]
  }

  ghost predicate OwnLength(s: seq<Byte>) {
    |s| >= 6 && LengthField(s) == |s| - 6
  }

  /** Filling in touches nothing but a zero length field, which becomes the packet's own if that has
      room for it, and else its low sixteen bits. */
  lemma LengthenedMeans(v: seq<Byte>)
    requires |v| >= 6
    ensures var r := Lengthened(v);
      && |r| == |v| && r[..4] == v[..4] && r[6..] == v[6..]
      && (LengthField(v) != 0 ==> r == v)
      && (LengthField(v) == 0 ==> LengthField(r) == (|v| - 6) % 0x1_0000)
      && (OwnLength(r) <==> OwnLength(v) || (LengthField(v) == 0 && |v| - 6 < 0x1_0000))
  {
    if LengthField(v) == 0 {
      assert v[4] == 0 && v[5] == 0;
      LowBytes(|v| - 6);
    }
  }

  lemma LowBytes(n: nat)
    ensures n / 256 % 256 * 256 + n % 256 == n % 0x1_0000
  {
    assert n == n / 0x1_0000 * 0x1_0000 + n % 0x1_0000;
    assert n / 256 == n / 0x1_0000 * 256 + n % 0x1_0000 / 256;
  }

  /** A PES packet that has been completed, as it came. */
  datatype Pes = Pes(kind: Kind, came: seq<Byte>)

  /** The PES packets completed, in order: those that were open when their PID next started a unit. */
  function Completes(h: seq<Packet>, t: Packet): seq<Pes> {
    if !Starts(t) then []
    else if Pid(t) == PidOf(h, Audio) then [Pes(Audio, Open(h, Audio))]
    else if Pid(t) == PidOf(h, Video) then [Pes(Video, Open(h, Video))]
    else []
  }

  function AllCompleted(h: seq<Packet>): seq<Pes> {
    if h == [] then [] else AllCompleted(Init(h)) + Completes(Init(h), Last(h))
  }

  /** How a PES packet is sent: audio as it came; video too, but that a zero length field is filled in. */
  ghost predicate SentAs(x: Pes, r: seq<Byte>) {
    if x.kind == Audio || |x.came| < 6 || LengthField(x.came) != 0 then r == x.came
    else
      && |r| == |x.came| && r[..4] == x.came[..4] && r[6..] == x.came[6..]
      && LengthField(r) == (|r| - 6) % 0x1_0000
  }

  function Flat(ss: seq<seq<Byte>>): seq<Byte> {
    if ss == [] then [] else Flat(ss[..|ss| - 1]) + ss[|ss| - 1]
  }

  ghost predicate AllSentAs(xs: seq<Pes>, rs: seq<seq<Byte>>) {
    |rs| == |xs| && forall i :: 0 <= i < |xs| ==> SentAs(xs[i], rs[i])
  }

  lemma FlatMore(ss: seq<seq<Byte>>, s: seq<Byte>)
    ensures Flat(ss + [s]) == Flat(ss) + s
  {
    assert (ss + [s])[..|ss|] == ss;
  }

  lemma OneSentAs(x: Pes, r: seq<Byte>)
    requires |x.came| >= 6 && r == match x.kind case Audio => x.came case Video => Lengthened(x.came)
    ensures SentAs(x, r) && Flat([r]) == r
  {
    LengthenedMeans(x.came);
    FlatMore([], r);
    assert [] + [r] == [r] && Flat([]) + r == r;
  }

  lemma CompletesBegun(h: seq<Packet>, t: Packet)
    requires Sane(h + [t])
    ensures forall x :: x in Completes(h, t) ==> |x.came| >= 6
  {
    SanePrefix(h, t);
    assert SanePacket((h + [t])[|h|]);
    OpenWhenFound(h, Audio);
    OpenWhenFound(h, Video);
  }

  lemma CompletedSentAs(h: seq<Packet>, t: Packet) returns (rs: seq<seq<Byte>>)
    requires Sane(h + [t])
    ensures AllSentAs(Completes(h, t), rs) && Flat(rs) == Completed(h, t)
    ensures forall x :: x in Completes(h, t) ==> |x.came| >= 6
  {
    CompletesBegun(h, t);
    rs := [];
    if Completes(h, t) != [] {
      rs := [Completed(h, t)];
      OneSentAs(Completes(h, t)[0], Completed(h, t));
    }
  }

  /** After the pack header the stream is the completed PES packets, one after another, each sent so. */
  lemma {:induction false} StreamOfPackets(h: seq<Packet>) returns (rs: seq<seq<Byte>>)
    requires Sane(h)
    ensures AllSentAs(AllCompleted(h), rs) && Stream(h) == HEADER + Flat(rs)
    ensures forall x :: x in AllCompleted(h) ==> |x.came| >= 6
  {
    if h == [] {
      rs := [];
      assert HEADER + [] == HEADER;
    } else {
      var i, t := Init(h), Last(h);
      assert h == i + [t];
      SanePrefix(i, t);
      var before := StreamOfPackets(i);
      var more := CompletedSentAs(i, t);
      rs := before + more;
      SentJoin(AllCompleted(i), Completes(i, t), before, more, HEADER);
    }
  }

  lemma SentJoin(xs: seq<Pes>, ys: seq<Pes>, rs: seq<seq<Byte>>, ss: seq<seq<Byte>>, head: seq<Byte>)
    requires AllSentAs(xs, rs) && AllSentAs(ys, ss)
    ensures AllSentAs(xs + ys, rs + ss) && head + Flat(rs) + Flat(ss) == head + Flat(rs + ss)
  {
    FlatJoin(rs, ss);
  }

  lemma {:induction false} FlatJoin(a: seq<seq<Byte>>, b: seq<seq<Byte>>)
    ensures Flat(a + b) == Flat(a) + Flat(b)
  {
    if b == [] {
      assert a + b == a;
    } else {
      var n := |b| - 1;
      assert a + b == a + b[..n] + [b[n]];
      FlatMore(a + b[..n], b[n]);
      FlatJoin(a, b[..n]);
    }
  }

  lemma {:induction false} GatherBound(h: seq<Packet>, pid: nat)
    ensures |Gather(h, pid)| < 0xFFFF + 184
  {
    if h != [] { GatherBound(Init(h), pid); }
  }

  /** A packet is cut short only from 65535 bytes on, and never grows to more than one payload beyond:
      so just the lengths from 65536 to 65712 cannot be written. */
  lemma OpenBound(h: seq<Packet>, t: Packet, k: Kind)
    ensures |Open(h, k)| < 0xFFFF + 184
    ensures Drops(h, t, k) ==> |Open(h, k)| >= 0xFFFF
  {
    var i := LastStart(h, FirstOf(h, k), PidOf(h, k));
    if i >= 0 { GatherBound(h[i..], PidOf(h, k)); }
  }

  /* Reading the stream again */

  /** Packets told apart by their length fields alone. */
  function Split(s: seq<Byte>): (r: Option<seq<seq<Byte>>>)
    decreases |s|
  {
    if s == [] then Some([])
    else if |s| < 6 || LengthField(s) + 6 > |s| then None
    else
      var n := LengthField(s) + 6;
      match Split(s[n..])
      case None => None
      case Some(rest) => Some([s[..n]] + rest)
  }

  /** A pack header, its stuffing and the packets behind it. */
  function Demultiplex(s: seq<Byte>): Option<seq<seq<Byte>>> {
    if |s| >= 14 && s[..4] == [0x00, 0x00, 0x01, 0xBA] && |s| >= 14 + s[13] % 8 then Split(s[14 + s[13] % 8..]) else None
  }

  lemma FlatFirst(a: seq<Byte>, ss: seq<seq<Byte>>)
    ensures Flat([a] + ss) == a + Flat(ss)
  {
    FlatJoin([a], ss);
    FlatMore([], a);
    assert [] + [a] == [a] && Flat([]) + a == a;
  }

  /** They are found again exactly if each has its own length. */
  lemma {:induction false} SplitsAgain(rs: seq<seq<Byte>>)
    requires forall r :: r in rs ==> |r| >= 6
    ensures Split(Flat(rs)) == Some(rs) <==> forall r :: r in rs ==> OwnLength(r)
  {
    if rs != [] {
      var r, rest := rs[0], rs[1..];
      assert rs == [r] + rest;
      SplitsAgain(rest);
      FlatFirst(r, rest);
      SplitFirst(r, Flat(rest), rest);
    }
  }

  lemma HeadOff(r: seq<Byte>, a: seq<seq<Byte>>, b: seq<seq<Byte>>)
    ensures [r] + a == [r] + b ==> a == b
  {
    assert ([r] + a)[1..] == a && ([r] + b)[1..] == b;
  }

  lemma SplitFirst(r: seq<Byte>, more: seq<Byte>, rest: seq<seq<Byte>>)
    requires |r| >= 6
    ensures Split(r + more) == Some([r] + rest) <==> OwnLength(r) && Split(more) == Some(rest)
  {
    var s := r + more;
    assert LengthField(s) == LengthField(r);
    if OwnLength(r) {
      assert s[..|r|] == r && s[|r|..] == more;
      if Split(more).Some? { HeadOff(r, Split(more).value, rest); }
    } else if Split(s).Some? {
      assert |Split(s).value[0]| != |r|;
    }
  }

  /** A reader that goes by the length fields finds every completed PES packet in the program stream
      exactly if each audio packet came with its own length, and each video packet did or came with
      none and is short enough for its length to be written. */
  ghost predicate Readable(x: Pes) {
    OwnLength(x.came) || (x.kind == Video && |x.came| >= 6 && LengthField(x.came) == 0 && |x.came| - 6 < 0x1_0000)
  }

  lemma StreamDemultiplexes(h: seq<Packet>) returns (rs: seq<seq<Byte>>)
    requires Sane(h)
    ensures AllSentAs(AllCompleted(h), rs)
    ensures Demultiplex(Stream(h)) == Some(rs) <==> forall x :: x in AllCompleted(h) ==> Readable(x)
  {
    rs := StreamOfPackets(h);
    var xs := AllCompleted(h);
    AfterHeader(Flat(rs));
    forall i | 0 <= i < |rs| ensures |rs[i]| >= 6 && (OwnLength(rs[i]) <==> Readable(xs[i])) {
      assert xs[i] in xs;
      SentReadable(xs[i], rs[i]);
    }
    SplitsAgain(rs);
  }

  lemma AfterHeader(s: seq<Byte>)
    ensures Demultiplex(HEADER + s) == Split(s)
  {
    var all := HEADER + s;
    assert HEADER[..4] == [0x00, 0x00, 0x01, 0xBA] && HEADER[13] == 0;
    assert all[..4] == HEADER[..4] && all[13] == HEADER[13];
    assert all[14..] == s;
  }

  lemma SentReadable(x: Pes, r: seq<Byte>)
    requires SentAs(x, r) && |x.came| >= 6
    ensures |r| >= 6 && (OwnLength(r) <==> Readable(x))
  {
  }

  /** The bytes of the packets of one kind. */
  function CameOf(xs: seq<Pes>, k: Kind): seq<Byte> {
    if xs == [] then []
    else
      var n := |xs| - 1;
      CameOf(xs[..n], k) + (if xs[n].kind == k then xs[n].came else [])
  }

  lemma CameMore(xs: seq<Pes>, x: Pes, k: Kind)
    ensures CameOf(xs + [x], k) == CameOf(xs, k) + (if x.kind == k then x.came else [])
  {
    assert (xs + [x])[..|xs|] == xs;
  }

  /** Where the two kinds keep to PIDs of their own, the packets completed of each are what is sent of it. */
  lemma {:induction false} CompletedAreSent(h: seq<Packet>, k: Kind)
    requires Sane(h) && (PidOf(h, Audio) == PidOf(h, Video) ==> PidOf(h, Audio) == 0)
    ensures CameOf(AllCompleted(h), k) == Sent(h, k)
  {
    if h != [] {
      var i, t := Init(h), Last(h);
      assert h == i + [t];
      SanePrefix(i, t);
      PidsStayApart(i, t);
      CompletedAreSent(i, k);
      assert SanePacket(h[|i|]);
      CameNext(i, t, AllCompleted(i), k);
    }
  }

  lemma PidsStayApart(i: seq<Packet>, t: Packet)
    requires Sane(i + [t]) && (PidOf(i + [t], Audio) == PidOf(i + [t], Video) ==> PidOf(i + [t], Audio) == 0)
    ensures PidOf(i, Audio) == PidOf(i, Video) ==> PidOf(i, Audio) == 0
  {
    OpenNext(i, t, Audio);
    OpenNext(i, t, Video);
    assert SanePacket((i + [t])[|i|]);
  }

  lemma CameNext(i: seq<Packet>, t: Packet, xs: seq<Pes>, k: Kind)
    requires Pid(t) != 0 && (PidOf(i, Audio) == PidOf(i, Video) ==> PidOf(i, Audio) == 0)
    ensures CameOf(xs + Completes(i, t), k) == CameOf(xs, k) + (if StartsPid(t, PidOf(i, k)) then Open(i, k) else [])
  {
    var more := Completes(i, t);
    assert xs + [] == xs;
    if more != [] { CameMore(xs, more[0], k); }
  }

  /* A packet too long for its length */

  const VIDEO := Transport(true, 0x100, None, [0x00, 0x00, 0x01, 0xE0, 0x00, 0x00] + seq(178, _ => 0), false, false, 0, 0)
  const MORE := Transport(false, 0x100, None, seq(184, _ => 0), false, false, 0, 0)

  /** A packet that starts a unit, and `n` that go on with it. */
  function Growing(first: Packet, more: Packet, n: nat): seq<Packet> {
    if n == 0 then [first] else Growing(first, more, n - 1) + [more]
  }

  /** Two packets of one PID, of which the first starts a video stream whose packets come without a length. */
  ghost predicate GrowsVideo(first: Packet, more: Packet) {
    && Is(first, Video) && !Is(first, Audio) && !Starts(more) && Pid(first) == Pid(more) != 0
    && PayloadAt(first) == PayloadAt(more) == 4 && first[8] == first[9] == 0
  }

  lemma {:induction false} GrowingSane(first: Packet, more: Packet, n: nat)
    requires GrowsVideo(first, more)
    ensures Sane(Growing(first, more, n)) && |Growing(first, more, n)| == n + 1
  {
    if n > 0 { GrowingSane(first, more, n - 1); }
  }

  /** What has been found and is open. */
  ghost predicate OpenVideo(h: seq<Packet>, pid: nat, size: nat) {
    && PidOf(h, Video) == pid != 0 && PidOf(h, Audio) == 0
    && |Open(h, Video)| == size >= 6 && Open(h, Video)[4] == Open(h, Video)[5] == 0
  }

  lemma FirstFound(t: Packet, k: Kind)
    requires Sane([t])
    ensures PidOf([t], k) == if Is(t, k) then Pid(t) else 0
    ensures Is(t, k) ==> Open([t], k) == Payload(t)
  {
    assert [] + [t] == [t];
    NothingFound([], k);
    OpenNext([], t, k);
  }

  lemma PlainPayload(t: Packet)
    requires PayloadAt(t) == 4
    ensures |Payload(t)| == 184 && Payload(t)[4] == t[8] && Payload(t)[5] == t[9]
  {
  }

  lemma OpensVideo(first: Packet, more: Packet)
    requires GrowsVideo(first, more)
    ensures OpenVideo([first], Pid(first), 184)
  {
    PlainPayload(first);
    GrowingSane(first, more, 0);
    FirstFound(first, Video);
    FirstFound(first, Audio);
  }

  lemma GrowsMore(h: seq<Packet>, first: Packet, more: Packet, size: nat)
    requires Sane(h + [more]) && GrowsVideo(first, more) && OpenVideo(h, Pid(first), size) && size < 65535
    ensures OpenVideo(h + [more], Pid(first), size + 184)
  {
    OpenNext(h, more, Video);
    OpenNext(h, more, Audio);
  }

  lemma {:induction false} GrowingOpen(first: Packet, more: Packet, n: nat)
    requires GrowsVideo(first, more) && 184 * n < 65535
    ensures OpenVideo(Growing(first, more, n), Pid(first), 184 * (n + 1))
  {
    if n == 0 {
      OpensVideo(first, more);
    } else {
      GrowingOpen(first, more, n - 1);
      GrowingSane(first, more, n);
      GrowsMore(Growing(first, more, n - 1), first, more, 184 * n);
    }
  }

  /** The next unit start of a video stream completes what is open with its length. */
  lemma VideoCompleted(h: seq<Packet>, t: Packet, size: nat)
    requires OpenVideo(h, Pid(t), size) && Starts(t)
    ensures |Completed(h, t)| == size && LengthField(Completed(h, t)) == (size - 6) % 0x1_0000
  {
    LengthenedMeans(Open(h, Video));
  }

  lemma GrownCompletes(first: Packet, more: Packet, n: nat, size: nat)
    requires GrowsVideo(first, more) && 184 * n < 65535 && size == 184 * (n + 1)
    ensures var r := Completed(Growing(first, more, n), first); |r| == size && LengthField(r) == (size - 6) % 0x1_0000
  {
    GrowingOpen(first, more, n);
    VideoCompleted(Growing(first, more, n), first, size);
  }

  lemma LaidVideo()
    ensures VIDEO.WellFormed() && MORE.WellFormed() && GrowsVideo(Laid(VIDEO), Laid(MORE))
  {
    ReadsTransport(VIDEO);
    ReadsTransport(MORE);
    ReadsKind(VIDEO);
    HeadBits(VIDEO);
    HeadBits(MORE);
    assert Laid(VIDEO)[4..] == VIDEO.payload;
    assert Laid(VIDEO)[8] == VIDEO.payload[4] && Laid(VIDEO)[9] == VIDEO.payload[5];
  }

  /** A video packet without a length that is made of so many transport packets, 357 of them and 65688
      bytes, is sent with a length that is 65536 short. */
  lemma TooLongForItsLength(n: nat, size: nat)
    requires 184 * n < 65535 && size == 184 * (n + 1) && size >= 6 + 0x1_0000
    ensures VIDEO.WellFormed() && MORE.WellFormed()
    ensures var h := Growing(Laid(VIDEO), Laid(MORE), n);
      && Sane(h) && |Completed(h, Laid(VIDEO))| == size && LengthField(Completed(h, Laid(VIDEO))) == size - 6 - 0x1_0000
  {
    LaidVideo();
    GrowingSane(Laid(VIDEO), Laid(MORE), n);
    GrownCompletes(Laid(VIDEO), Laid(MORE), n, size);
    ShortOf(size);
  }

  lemma ShortOf(size: nat)
    requires 6 + 0x1_0000 <= size < 65535 + 184
    ensures (size - 6) % 0x1_0000 == size - 6 - 0x1_0000
  {
  }
}

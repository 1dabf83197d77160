/** What a program stream is made of, given the transport packets it was made from: the pack header
    and then every completed PES packet (sections 2.4.3.3 and 2.4.3.7 of ISO/IEC 13818-1). */
module ProgramModel {
  import opened Common

  /** A transport packet. */
  type Packet = s: seq<Byte> | |s| == 188 witness seq(188, _ => 0)

  const CAP: nat := 65535

  const HEADER: seq<Byte> := [0x00, 0x00, 0x01, 0xBA, 0x44, 0x00, 0x04, 0x00, 0x04, 0x01, 0x00, 0x9C, 0x43, 0x00]

  /* One packet */

  function Pid(t: Packet): nat {
    (t[1] as nat) % 0x20 * 256 + t[2]
  }

  predicate Starts(t: Packet) {
    t[1] / 0x40 % 2 == 1
  }

  predicate Adapted(t: Packet) {
    t[3] / 0x20 % 2 == 1
  }

  function PayloadAt(t: Packet): nat {
    if Adapted(t) then 5 + t[4] as nat else 4
  }

  /** What follows the header and the adaptation field. */
  function Payload(t: Packet): seq<Byte> {
    if PayloadAt(t) > 188 then [] else t[PayloadAt(t)..]
  }

  function StreamId(t: Packet): nat {
    if |Payload(t)| > 3 then Payload(t)[3] else 0
  }

  /* The history of packets */

  datatype Kind = Audio | Video

  /** The start of a PES packet of that kind. */
  predicate Is(t: Packet, k: Kind) {
    Starts(t) && match k case Audio => 0xC0 <= StreamId(t) <= 0xDF case Video => 0xE0 <= StreamId(t) <= 0xEF
  }

  function Init(h: seq<Packet>): seq<Packet>
    requires h != []
  {
    h[..|h| - 1]
  }

  function Last(h: seq<Packet>): Packet
    requires h != []
  {
    h[|h| - 1]
  }

  /** Where the first stream of that kind is found. */
  function FirstOf(h: seq<Packet>, k: Kind): (i: nat)
    ensures i <= |h| && (i < |h| ==> Is(h[i], k))
    ensures forall j | 0 <= j < i :: !Is(h[j], k)
  {
    if h == [] then 0
    else
      var i := FirstOf(Init(h), k);
      assert forall j | 0 <= j < |h| - 1 :: Init(h)[j] == h[j];
      if i < |h| - 1 || Is(Last(h), k) then i else |h|
  }

  function PidOf(h: seq<Packet>, k: Kind): nat {
    var i := FirstOf(h, k);
    if i < |h| then Pid(h[i]) else 0
  }

  predicate StartsPid(t: Packet, pid: nat) {
    Starts(t) && Pid(t) == pid
  }

  /** The last unit start of a PID at or after `from`. */
  function LastStart(h: seq<Packet>, from: nat, pid: nat): (i: int)
    ensures -1 <= i < |h|
    ensures i >= 0 ==> from <= i && StartsPid(h[i], pid)
    ensures forall j | from <= j < |h| && j > i :: !StartsPid(h[j], pid)
  {
    if |h| <= from then -1
    else if StartsPid(Last(h), pid) then |h| - 1
    else LastStart(Init(h), from, pid)
  }

  /** The payloads of a PID, one after another, of which no more are taken once there are too many. */
  function Gather(h: seq<Packet>, pid: nat): seq<Byte> {
    if h == [] then []
    else
      var g := Gather(Init(h), pid);
      if Pid(Last(h)) == pid && |g| < CAP then g + Payload(Last(h)) else g
  }

  /** The PES packet that has started and has not ended. */
  function Open(h: seq<Packet>, k: Kind): seq<Byte> {
    var i := LastStart(h, FirstOf(h, k), PidOf(h, k));
    if i < 0 then [] else Gather(h[i..], PidOf(h, k))
  }

  /** A length field of zero, as video has it, is filled in. */
  function Lengthened(v: seq<Byte>): (r: seq<Byte>)
    ensures |r| == |v|
  {
    if |v| >= 6 && v[4] == 0 && v[5] == 0 then v[4 := (|v| - 6) / 256 % 256][5 := (|v| - 6) % 256] else v
  }

  /** The next unit start of a stream completes its open PES packet. */
  function Completed(h: seq<Packet>, t: Packet): seq<Byte> {
    if !Starts(t) then []
    else if Pid(t) == PidOf(h, Audio) then Open(h, Audio)
    else if Pid(t) == PidOf(h, Video) then Lengthened(Open(h, Video))
    else []
  }

  /** The program stream of a history. */
  function Stream(h: seq<Packet>): seq<Byte> {
    if h == [] then HEADER else Stream(Init(h)) + Completed(Init(h), Last(h))
  }

  /** What the transport stream is taken to be: no PID is zero, and every unit start has the six bytes
      that begin a PES packet. */
  predicate Sane(h: seq<Packet>) {
    forall i | 0 <= i < |h| :: SanePacket(h[i])
  }

  predicate SanePacket(t: Packet) {
    Pid(t) != 0 && PayloadAt(t) <= 188 && (Starts(t) ==> |Payload(t)| >= 6)
  }

  /* The program as it runs, on values */

  datatype State = State(audioPid: nat, videoPid: nat, audio: seq<Byte>, video: seq<Byte>)

  function Found(s: State, t: Packet): State {
    if Is(t, Audio) && s.audioPid == 0 then s.(audioPid := Pid(t))
    else if Is(t, Video) && s.videoPid == 0 then s.(videoPid := Pid(t))
    else s
  }

  /** The buffers after a unit start, and what goes to the output. */
  function Flushed(s: State, t: Packet): (State, seq<Byte>) {
    if !Starts(t) then (s, [])
    else if Pid(t) == s.audioPid && s.audio != [] then (s.(audio := []), s.audio)
    else if Pid(t) == s.videoPid && s.video != [] then (s.(video := []), Lengthened(s.video))
    else (s, [])
  }

  function Appended(s: State, t: Packet): State {
    if Pid(t) == s.audioPid && |s.audio| < CAP then s.(audio := s.audio + Payload(t))
    else if Pid(t) == s.videoPid && |s.video| < CAP then s.(video := s.video + Payload(t))
    else s
  }

  function Fill(s: State, t: Packet): (State, seq<Byte>) {
    var (n, out) := Flushed(Found(s, t), t);
    (Appended(n, t), out)
  }

  /** Each kind has a PID of its own, or none. */
  predicate Apart(s: State) {
    s.audioPid == s.videoPid ==> s.audioPid == 0
  }

  /** A PID that starts both kinds is taken for audio: what is in the video buffer is then of no account. */
  predicate Reached(h: seq<Packet>, s: State) {
    && s.audioPid == PidOf(h, Audio) && s.videoPid == PidOf(h, Video)
    && s.audio == Open(h, Audio)
    && (Apart(s) ==> s.video == Open(h, Video))
  }

  lemma StreamNext(h: seq<Packet>, t: Packet)
    ensures Stream(h + [t]) == Stream(h) + Completed(h, t)
  {
    assert Init(h + [t]) == h;
  }

  /* One more packet */

  /** The open PES packet of one kind after a packet, from what it was. */
  function Next(open: seq<Byte>, t: Packet, pid: nat): seq<Byte> {
    if Pid(t) != pid then open
    else if Starts(t) then Payload(t)
    else if |open| < CAP then open + Payload(t)
    else open
  }

  lemma GatherFirst(h: seq<Packet>, pid: nat)
    requires h != [] && Pid(h[0]) == pid
    ensures |Gather(h, pid)| >= |Payload(h[0])|
  {
    if |h| > 1 {
      GatherFirst(Init(h), pid);
    } else {
      assert Gather(Init(h), pid) == [];
    }
  }

  /** A stream that has been found has an open PES packet, with its first six bytes. */
  lemma OpenBegun(h: seq<Packet>, k: Kind)
    requires Sane(h) && FirstOf(h, k) < |h|
    ensures PidOf(h, k) != 0 && |Open(h, k)| >= 6
  {
    var f, p := FirstOf(h, k), PidOf(h, k);
    var i := LastStart(h, f, p);
    assert SanePacket(h[f]) && StartsPid(h[f], p);
    assert i >= 0;
    assert SanePacket(h[i]);
    GatherFirst(h[i..], p);
  }

  lemma NothingFound(h: seq<Packet>, k: Kind)
    requires FirstOf(h, k) == |h|
    ensures PidOf(h, k) == 0 && Open(h, k) == []
  {
  }

  /** How the open PES packet of one kind goes on. */
  lemma OpenNext(h: seq<Packet>, t: Packet, k: Kind)
    requires Sane(h + [t])
    ensures PidOf(h + [t], k) == if PidOf(h, k) == 0 && Is(t, k) then Pid(t) else PidOf(h, k)
    ensures Open(h + [t], k) == Next(Open(h, k), t, PidOf(h + [t], k))
  {
    var n := h + [t];
    assert Init(n) == h && Last(n) == t && SanePacket(n[|h|]);
    assert Sane(h) by { SanePrefix(h, t); }
    var f := FirstOf(h, k);
    if f < |h| {
      OpenBegun(h, k);
      OpenOn(h, t, k);
    } else {
      NothingFound(h, k);
      if Is(t, k) {
        assert n[|h|..] == [t] && Init([t]) == [];
        assert Gather([t], Pid(t)) == Payload(t);
      } else {
        NothingFound(n, k);
      }
    }
  }

  lemma SanePrefix(h: seq<Packet>, t: Packet)
    requires Sane(h + [t])
    ensures Sane(h)
  {
    forall i | 0 <= i < |h| ensures SanePacket(h[i]) { assert (h + [t])[i] == h[i]; }
  }

  lemma FoundStays(h: seq<Packet>, t: Packet, k: Kind)
    requires FirstOf(h, k) < |h|
    ensures FirstOf(h + [t], k) == FirstOf(h, k) && PidOf(h + [t], k) == PidOf(h, k)
  {
    assert Init(h + [t]) == h;
  }

  lemma StartStays(h: seq<Packet>, t: Packet, from: nat, pid: nat)
    requires from <= |h|
    ensures LastStart(h + [t], from, pid) == if StartsPid(t, pid) then |h| else LastStart(h, from, pid)
  {
    assert Init(h + [t]) == h;
  }

  lemma GatherNext(h: seq<Packet>, t: Packet, i: nat, pid: nat)
    requires i <= |h|
    ensures var g := Gather(h[i..], pid);
      Gather((h + [t])[i..], pid) == if Pid(t) == pid && |g| < CAP then g + Payload(t) else g
  {
    assert Init((h + [t])[i..]) == h[i..];
  }

  lemma OpenOn(h: seq<Packet>, t: Packet, k: Kind)
    requires FirstOf(h, k) < |h| && LastStart(h, FirstOf(h, k), PidOf(h, k)) >= 0
    ensures PidOf(h + [t], k) == PidOf(h, k)
    ensures Open(h + [t], k) == Next(Open(h, k), t, PidOf(h, k))
  {
    var f, p := FirstOf(h, k), PidOf(h, k);
    FoundStays(h, t, k);
    StartStays(h, t, f, p);
    if StartsPid(t, p) {
      GatherStart(h, t, p);
    } else {
      GatherNext(h, t, LastStart(h, f, p), p);
    }
  }

  lemma GatherStart(h: seq<Packet>, t: Packet, pid: nat)
    requires Pid(t) == pid
    ensures Gather((h + [t])[|h|..], pid) == Payload(t)
  {
    assert (h + [t])[|h|..] == [t] && Init([t]) == [];
    assert [] + Payload(t) == Payload(t);
  }

  /** A stream has a PID, and an open PES packet, from the time it is found. */
  lemma OpenWhenFound(h: seq<Packet>, k: Kind)
    requires Sane(h)
    ensures PidOf(h, k) != 0 ==> |Open(h, k)| >= 6
    ensures PidOf(h, k) == 0 ==> Open(h, k) == []
  {
    if FirstOf(h, k) < |h| { OpenBegun(h, k); } else { NothingFound(h, k); }
  }

  /** The buffers follow the history, and what goes to the output is what the packet completes. */
  lemma FillKeeps(h: seq<Packet>, s: State, t: Packet)
    requires Sane(h + [t]) && Reached(h, s)
    ensures Reached(h + [t], Fill(s, t).0) && Fill(s, t).1 == Completed(h, t)
  {
    var n := h + [t];
    assert SanePacket(n[|h|]);
    SanePrefix(h, t);
    OpenNext(h, t, Audio);
    OpenNext(h, t, Video);
    OpenWhenFound(h, Audio);
    OpenWhenFound(h, Video);
    FillStep(s, t, State(PidOf(n, Audio), PidOf(n, Video), Open(n, Audio), Open(n, Video)));
  }

  /** Whether something has been found of a kind shows in both its PID and its buffer. */
  predicate FoundAlike(s: State) {
    && (s.audioPid != 0 <==> s.audio != [])
    && (Apart(s) ==> (s.videoPid != 0 <==> s.video != []))
  }

  lemma FillStep(s: State, t: Packet, n: State)
    requires Pid(t) != 0 && FoundAlike(s)
    requires n.audioPid == (if s.audioPid == 0 && Is(t, Audio) then Pid(t) else s.audioPid)
    requires n.videoPid == (if s.videoPid == 0 && Is(t, Video) then Pid(t) else s.videoPid)
    requires n.audio == Next(s.audio, t, n.audioPid)
    requires Apart(n) ==> n.video == Next(s.video, t, n.videoPid)
    ensures var f := Fill(s, t).0;
      && f.audioPid == n.audioPid && f.videoPid == n.videoPid && f.audio == n.audio
      && (Apart(n) ==> f.video == n.video)
    ensures Fill(s, t).1
            == (if !Starts(t) then []
                else if Pid(t) == s.audioPid then s.audio
                else if Pid(t) == s.videoPid then Lengthened(s.video)
                else [])
  {
    assert [] + Payload(t) == Payload(t);
  }

  /* Nothing is lost */

  /** The completed PES packets of one kind, one after another. */
  function Sent(h: seq<Packet>, k: Kind): seq<Byte> {
    if h == [] then []
    else Sent(Init(h), k) + (if StartsPid(Last(h), PidOf(Init(h), k)) then Open(Init(h), k) else [])
  }

  /** All that a PID carries. */
  function Carried(h: seq<Packet>, pid: nat): seq<Byte> {
    if h == [] then []
    else Carried(Init(h), pid) + (if Pid(Last(h)) == pid then Payload(Last(h)) else [])
  }

  /** The bytes of a packet that belongs to a PES packet which has grown to where it is cut short. */
  predicate Drops(h: seq<Packet>, t: Packet, k: Kind) {
    PidOf(h, k) != 0 && Pid(t) == PidOf(h, k) && !Starts(t) && Payload(t) != [] && |Open(h, k)| >= CAP
  }

  ghost predicate DropsNone(h: seq<Packet>, k: Kind) {
    forall j {:trigger h[j]} :: 0 <= j < |h| ==> !Drops(h[..j], h[j], k)
  }

  /** All that a stream's PID carries, since the stream was found, but for what is dropped. */
  function Taken(h: seq<Packet>, k: Kind): seq<Byte> {
    if h == [] then []
    else
      var i, t := Init(h), Last(h);
      Taken(i, k) + (if Pid(t) == PidOf(h, k) && !Drops(i, t, k) then Payload(t) else [])
  }

  lemma CarriedNext(h: seq<Packet>, t: Packet, f: nat, pid: nat)
    requires f <= |h|
    ensures Carried((h + [t])[f..], pid) == Carried(h[f..], pid) + (if Pid(t) == pid then Payload(t) else [])
  {
    assert Init((h + [t])[f..]) == h[f..];
  }

  lemma SumNext(sent: seq<Byte>, open: seq<Byte>, t: Packet, before: nat, after: nat, dropped: bool)
    requires Pid(t) != 0 && (if before == 0 then open == [] && (after != 0 ==> Starts(t)) else after == before)
    requires dropped <==> before != 0 && Pid(t) == before && !Starts(t) && Payload(t) != [] && |open| >= CAP
    ensures sent + (if StartsPid(t, before) then open else []) + Next(open, t, after)
            == sent + open + (if Pid(t) == after && !dropped then Payload(t) else [])
  {
    if Pid(t) == after {
      if Starts(t) && before == 0 {
        assert sent + [] + Payload(t) == sent + Payload(t);
      } else if !Starts(t) && |open| < CAP {
        assert sent + [] + (open + Payload(t)) == sent + open + Payload(t);
      } else if !Starts(t) {
        assert sent + [] + open == sent + open + [];
      }
    } else {
      assert sent + [] + open == sent + open + [];
    }
  }

  lemma SentNext(h: seq<Packet>, t: Packet, k: Kind)
    requires Sane(h + [t])
    ensures var n, pid := h + [t], PidOf(h + [t], k);
      Sent(n, k) + Open(n, k) == Sent(h, k) + Open(h, k) + (if Pid(t) == pid && !Drops(h, t, k) then Payload(t) else [])
  {
    var n := h + [t];
    assert Init(n) == h && Last(n) == t && SanePacket(n[|h|]);
    SanePrefix(h, t);
    OpenNext(h, t, k);
    OpenWhenFound(h, k);
    SumNext(Sent(h, k), Open(h, k), t, PidOf(h, k), PidOf(n, k), Drops(h, t, k));
  }

  /** The PES packets sent and the one still open are together all that the PID has carried since the
      stream was found, each byte once and in order, but for what is dropped. */
  lemma {:induction false} AllTaken(h: seq<Packet>, k: Kind)
    requires Sane(h)
    ensures Sent(h, k) + Open(h, k) == Taken(h, k)
  {
    if h == [] {
      NothingFound(h, k);
    } else {
      var i, t := Init(h), Last(h);
      assert h == i + [t];
      SanePrefix(i, t);
      AllTaken(i, k);
      SentNext(i, t, k);
    }
  }

  lemma CarriedStep(i: seq<Packet>, t: Packet, k: Kind)
    requires Sane(i + [t])
    ensures var h := i + [t];
      Carried(h[FirstOf(h, k)..], PidOf(h, k))
      == Carried(i[FirstOf(i, k)..], PidOf(i, k)) + (if Pid(t) == PidOf(h, k) then Payload(t) else [])
  {
    var h, f := i + [t], FirstOf(i, k);
    if f < |i| {
      FoundStays(i, t, k);
      CarriedNext(i, t, f, PidOf(h, k));
    } else {
      FoundLast(i, t, k);
      NothingFound(i, k);
      assert i[|i|..] == [];
    }
  }

  lemma DropsNoneNext(i: seq<Packet>, t: Packet, k: Kind)
    ensures DropsNone(i + [t], k) <==> DropsNone(i, k) && !Drops(i, t, k)
  {
    var h := i + [t];
    assert h[..|i|] == i && h[|i|] == t;
    forall j | 0 <= j < |i| ensures h[..j] == i[..j] && h[j] == i[j] {}
    if DropsNone(h, k) {
      forall j | 0 <= j < |i| ensures !Drops(i[..j], i[j], k) { assert !Drops(h[..j], h[j], k); }
    }
  }

  /** What is taken is all there is exactly if nothing is dropped, and else less. */
  lemma {:induction false} TakenOrLess(h: seq<Packet>, k: Kind)
    requires Sane(h)
    ensures var all := Carried(h[FirstOf(h, k)..], PidOf(h, k));
      if DropsNone(h, k) then Taken(h, k) == all else |Taken(h, k)| < |all|
  {
    if h == [] {
      NothingFound(h, k);
    } else {
      var i, t := Init(h), Last(h);
      assert h == i + [t];
      SanePrefix(i, t);
      TakenOrLess(i, k);
      CarriedStep(i, t, k);
      DropsNoneNext(i, t, k);
      if PidOf(i, k) != 0 { FoundStays(i, t, k); }
    }
  }

  /** No byte of a stream is lost, exactly if no packet that starts no unit and has payload comes when
      its PES packet has grown to the cap. */
  lemma NothingLost(h: seq<Packet>, k: Kind)
    requires Sane(h)
    ensures Sent(h, k) + Open(h, k) == Carried(h[FirstOf(h, k)..], PidOf(h, k)) <==> DropsNone(h, k)
  {
    AllTaken(h, k);
    TakenOrLess(h, k);
  }

  lemma FoundLast(i: seq<Packet>, t: Packet, k: Kind)
    requires Sane(i + [t]) && FirstOf(i, k) == |i|
    ensures var n, pid := i + [t], PidOf(i + [t], k);
      Carried(n[FirstOf(n, k)..], pid) == Carried(i[|i|..], 0) + (if Pid(t) == pid then Payload(t) else [])
  {
    var n := i + [t];
    assert Init(n) == i && Last(n) == t && SanePacket(n[|i|]);
    NothingFound(i, k);
    OpenNext(i, t, k);
    if Is(t, k) {
      assert n[|i|..] == [t] && Init([t]) == [];
    } else {
      assert n[|n|..] == [];
    }
  }
}

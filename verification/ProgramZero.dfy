/** Packets of PID zero, which is what the PID of a stream is until the stream is found. */
module ProgramZero {
  import opened Common
  import opened ProgramModel

  /** The buffers and the output of a program as it runs, whatever the PIDs. */
  function Ran(h: seq<Packet>): (State, seq<Byte>) {
    if h == [] then (State(0, 0, [], []), HEADER)
    else
      var (s, out) := Ran(Init(h));
      var (n, more) := Fill(s, Last(h));
      (n, out + more)
  }

  lemma RanNext(h: seq<Packet>, t: Packet)
    ensures Ran(h + [t]) == (Fill(Ran(h).0, t).0, Ran(h).1 + Fill(Ran(h).0, t).1)
  {
    assert Init(h + [t]) == h;
  }

  /** Without such packets it is the program stream of the history. */
  lemma {:induction false} RanIsStream(h: seq<Packet>)
    requires Sane(h)
    ensures Reached(h, Ran(h).0) && Ran(h).1 == Stream(h)
  {
    if h == [] {
      NothingFound(h, Audio);
      NothingFound(h, Video);
    } else {
      var i, t := Init(h), Last(h);
      assert h == i + [t];
      SanePrefix(i, t);
      RanIsStream(i);
      FillKeeps(i, Ran(i).0, t);
      StreamNext(i, t);
    }
  }

  /** What the program reads without going past a packet or a buffer: every unit start has the six bytes
      that begin a PES packet, and a packet of PID zero has them or nothing. */
  predicate Mild(t: Packet) {
    && PayloadAt(t) <= 188
    && (Starts(t) ==> |Payload(t)| >= 6)
    && (Pid(t) == 0 ==> Payload(t) == [] || |Payload(t)| >= 6)
  }

  predicate AllMild(h: seq<Packet>) {
    forall i | 0 <= i < |h| :: Mild(h[i])
  }

  /** A buffer that is sent has six bytes, as the one of a kind that was found has. */
  predicate Firm(s: State) {
    && (s.audioPid != 0 ==> s.audio != [])
    && (if s.videoPid == 0 then s.video == [] || |s.video| >= 6
        else s.videoPid != s.audioPid ==> |s.video| >= 6)
  }

  lemma FirmNext(s: State, t: Packet)
    requires Firm(s) && Mild(t)
    ensures Firm(Fill(s, t).0)
  {
    if Starts(t) { assert Payload(t) != []; }
  }

  lemma {:induction false} RanFirm(h: seq<Packet>)
    requires AllMild(h)
    ensures Firm(Ran(h).0)
  {
    if h != [] {
      assert AllMild(Init(h));
      RanFirm(Init(h));
      FirmNext(Ran(Init(h)).0, Last(h));
    }
  }

  function Nonzero(h: seq<Packet>): seq<Packet> {
    if h == [] then []
    else Nonzero(Init(h)) + (if Pid(Last(h)) == 0 then [] else [Last(h)])
  }

  lemma NonzeroNext(h: seq<Packet>, t: Packet)
    ensures Nonzero(h + [t]) == Nonzero(h) + (if Pid(t) == 0 then [] else [t])
  {
    assert Init(h + [t]) == h;
  }

  /** A unit start sends bytes that wait for a kind of stream which was not found. */
  predicate SendsZero(s: State, t: Packet) {
    && Starts(t)
    && (if s.audioPid == 0 && s.audio != [] && (Pid(t) == 0 || Is(t, Audio)) then true
        else s.videoPid == 0 && s.video != [] && (Pid(t) == 0 || Is(t, Video)))
  }

  ghost predicate SendsNone(h: seq<Packet>) {
    forall j {:trigger h[j]} :: 0 <= j < |h| ==> !SendsZero(Ran(h[..j]).0, h[j])
  }

  lemma SendsNoneNext(h: seq<Packet>, t: Packet)
    ensures SendsNone(h + [t]) <==> SendsNone(h) && !SendsZero(Ran(h).0, t)
  {
    var n := h + [t];
    assert n[..|h|] == h && n[|h|] == t;
    forall j | 0 <= j < |h| ensures n[..j] == h[..j] && n[j] == h[j] {}
    if SendsNone(n) {
      forall j | 0 <= j < |h| ensures !SendsZero(Ran(h[..j]).0, h[j]) { assert !SendsZero(Ran(n[..j]).0, n[j]); }
    }
  }

  /** No PID but zero begins both kinds. */
  predicate KindsApart(h: seq<Packet>) {
    forall i, j | 0 <= i < |h| && 0 <= j < |h| && Is(h[i], Audio) && Is(h[j], Video) && Pid(h[i]) == Pid(h[j]) ::
      Pid(h[i]) == 0
  }

  /** A PID that is held was found. */
  ghost predicate FromHistory(h: seq<Packet>, s: State) {
    && (s.audioPid != 0 ==> exists i :: 0 <= i < |h| && Is(h[i], Audio) && Pid(h[i]) == s.audioPid)
    && (s.videoPid != 0 ==> exists i :: 0 <= i < |h| && Is(h[i], Video) && Pid(h[i]) == s.videoPid)
  }

  /** The buffers with and without the packets of PID zero: they differ only where nothing was found. */
  ghost predicate Related(a: State, b: State) {
    && a.audioPid == b.audioPid && a.videoPid == b.videoPid
    && (if a.audioPid == 0 then b.audio == [] else b.audio == a.audio)
    && (if a.videoPid == 0 then b.video == [] else b.video == a.video)
  }

  lemma PidsNext(s: State, t: Packet)
    ensures Fill(s, t).0.audioPid == (if s.audioPid == 0 && Is(t, Audio) then Pid(t) else s.audioPid)
    ensures Fill(s, t).0.videoPid == (if s.videoPid == 0 && Is(t, Video) then Pid(t) else s.videoPid)
  {
  }

  lemma HistoryNext(h: seq<Packet>, s: State, t: Packet)
    requires FromHistory(h, s)
    ensures FromHistory(h + [t], Fill(s, t).0)
  {
    var n := h + [t];
    PidsNext(s, t);
    assert n[|h|] == t && forall i :: 0 <= i < |h| ==> n[i] == h[i];
  }

  /** A packet of PID zero changes only what waits for a stream that was not found. */
  lemma ZeroStep(a: State, b: State, t: Packet)
    requires Related(a, b) && Pid(t) == 0
    ensures Related(Fill(a, t).0, b)
    ensures Fill(a, t).1 != [] <==> SendsZero(a, t)
  {
  }

  /** A packet begins no kind on the PID of the other. */
  ghost predicate BeginsApart(s: State, t: Packet) {
    && (Is(t, Audio) && s.videoPid != 0 ==> Pid(t) != s.videoPid)
    && (Is(t, Video) && s.audioPid != 0 ==> Pid(t) != s.audioPid)
  }

  lemma HistoryApart(h: seq<Packet>, s: State, t: Packet)
    requires FromHistory(h, s) && KindsApart(h + [t])
    ensures BeginsApart(s, t)
  {
    var n := h + [t];
    assert n[|h|] == t && forall i :: 0 <= i < |h| ==> n[i] == h[i];
    if s.audioPid != 0 && Is(t, Video) {
      var i :| 0 <= i < |h| && Is(h[i], Audio) && Pid(h[i]) == s.audioPid;
      assert Is(n[i], Audio) && Is(n[|h|], Video);
    }
    if s.videoPid != 0 && Is(t, Audio) {
      var i :| 0 <= i < |h| && Is(h[i], Video) && Pid(h[i]) == s.videoPid;
      assert Is(n[i], Video) && Is(n[|h|], Audio);
    }
  }

  /** Another packet does the same with and without, unless it sends what waits. */
  lemma FoundStep(a: State, b: State, t: Packet)
    requires Related(a, b) && Pid(t) != 0 && (BeginsApart(a, t) || !SendsZero(a, t))
    ensures var a', b' := Flushed(Found(a, t), t), Flushed(Found(b, t), t);
      && Related(Appended(a'.0, t), Appended(b'.0, t))
      && if SendsZero(a, t) then b'.1 == [] && a'.1 != [] else a'.1 == b'.1
  {
    if !Starts(t) {
    } else if a.audioPid == 0 && Is(t, Audio) {
    } else if a.videoPid == 0 && Is(t, Video) {
    } else {
    }
  }

  lemma OtherStep(a: State, b: State, t: Packet)
    requires Related(a, b) && Pid(t) != 0 && (BeginsApart(a, t) || !SendsZero(a, t))
    ensures Related(Fill(a, t).0, Fill(b, t).0)
    ensures if SendsZero(a, t) then Fill(b, t).1 == [] && Fill(a, t).1 != [] else Fill(a, t).1 == Fill(b, t).1
  {
    FoundStep(a, b, t);
  }

  lemma {:induction false} RanFromHistory(h: seq<Packet>)
    ensures FromHistory(h, Ran(h).0)
  {
    if h != [] {
      var i, t := Init(h), Last(h);
      assert h == i + [t];
      RanFromHistory(i);
      HistoryNext(i, Ran(i).0, t);
    }
  }

  /** The two runs side by side: the buffers related, and the output the same or longer. */
  ghost predicate Beside(h: seq<Packet>) {
    && Related(Ran(h).0, Ran(Nonzero(h)).0)
    && if SendsNone(h) then Ran(h).1 == Ran(Nonzero(h)).1 else |Ran(h).1| > |Ran(Nonzero(h)).1|
  }

  lemma BesideZero(h: seq<Packet>, t: Packet)
    requires Beside(h) && Pid(t) == 0
    ensures Beside(h + [t])
  {
    RanNext(h, t);
    NonzeroNext(h, t);
    SendsNoneNext(h, t);
    ZeroStep(Ran(h).0, Ran(Nonzero(h)).0, t);
    assert Nonzero(h) + [] == Nonzero(h);
  }

  lemma BesideOther(h: seq<Packet>, t: Packet)
    requires Beside(h) && Pid(t) != 0 && (BeginsApart(Ran(h).0, t) || !SendsZero(Ran(h).0, t))
    ensures Beside(h + [t])
  {
    RanNext(h, t);
    NonzeroNext(h, t);
    SendsNoneNext(h, t);
    RanNext(Nonzero(h), t);
    OtherStep(Ran(h).0, Ran(Nonzero(h)).0, t);
  }

  lemma {:induction false} RunsBeside(h: seq<Packet>)
    requires KindsApart(h) || SendsNone(h)
    ensures Beside(h)
  {
    if h != [] {
      var i, t := Init(h), Last(h);
      assert h == i + [t];
      SendsNoneNext(i, t);
      RunsBeside(i);
      if Pid(t) == 0 {
        BesideZero(i, t);
      } else {
        if KindsApart(h) {
          RanFromHistory(i);
          HistoryApart(i, Ran(i).0, t);
        }
        BesideOther(i, t);
      }
    }
  }

  lemma {:induction false} NonzeroHas(h: seq<Packet>)
    ensures forall t :: t in Nonzero(h) <==> t in h && Pid(t) != 0
  {
    if h != [] {
      NonzeroHas(Init(h));
      assert h == Init(h) + [Last(h)];
    }
  }

  /** Packets of PID zero leave the output as it would be without them if no unit start sends bytes that
      wait for a kind not found; and only then, if no PID begins both kinds. */
  lemma ZeroHarmless(h: seq<Packet>)
    ensures SendsNone(h) ==> Ran(h).1 == Ran(Nonzero(h)).1
    ensures KindsApart(h) ==> (Ran(h).1 == Ran(Nonzero(h)).1 <==> SendsNone(h))
    ensures (forall t :: t in h && Pid(t) != 0 ==> SanePacket(t)) ==> Ran(Nonzero(h)).1 == Stream(Nonzero(h))
  {
    if KindsApart(h) || SendsNone(h) { RunsBeside(h); }
    if forall t :: t in h && Pid(t) != 0 ==> SanePacket(t) {
      NonzeroHas(h);
      var n := Nonzero(h);
      forall i | 0 <= i < |n| ensures SanePacket(n[i]) { assert n[i] in n; }
      RanIsStream(n);
    }
  }

  /* What goes out */

  /** What a packet carries before an audio stream is found goes out as an audio PES packet once it is. */
  lemma TakenForAudio(z: Packet, t: Packet)
    requires Pid(z) == 0 && !Starts(z) && Payload(z) != [] && Is(t, Audio) && Pid(t) != 0
    ensures var s := Fill(State(0, 0, [], []), z).0;
      s.audio == Payload(z) && Fill(s, t).1 == Payload(z) && SendsZero(s, t)
  {
    assert [] + Payload(z) == Payload(z);
  }

  /** And what one carries after that, before a video stream is found, goes out as a video PES packet
      with the next unit start of PID zero, whatever that begins. */
  lemma TakenForVideo(s: State, z: Packet, t: Packet)
    requires s.audioPid != 0 && s.videoPid == 0 && s.video == []
    requires Pid(z) == 0 && Starts(z) && Payload(z) != [] && Pid(t) == 0 && Starts(t)
    ensures Fill(Fill(s, z).0, t).1 == Lengthened(Payload(z)) && SendsZero(Fill(s, z).0, t)
  {
    assert [] + Payload(z) == Payload(z);
  }
}

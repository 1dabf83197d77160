/** Documents of element events, and what the parser makes of them. */
module SoapDocument {
  import opened Keys
  import opened SoapModel

  datatype Event = Begin(tag: string) | Content(text: string) | End(tag: string)

  /** The parser between events. */
  datatype State = State(param: nat, value: string, result: Params)

  /** What one service call expects. */
  datatype Call = Call(data: Data, args: seq<nat>)

  predicate Good(c: Call) {
    WellFormed(c.data) && GoodArgs(c.data, c.args) && forall t <- c.data.types :: Readable(c.data, t)
  }

  function TypeAt(c: Call, k: nat): (t: Type)
    requires Good(c) && k < |c.args|
    ensures Readable(c.data, t)
  {
    TypeOf(c.data, c.args, k)
  }

  function SlotAt(c: Call, k: nat): (i: nat)
    requires Good(c) && k < |c.args|
    ensures i < MAX_PARAMS
  {
    Slot(c.data, c.args, k)
  }

  function ValueAt(c: Call, p: Params, k: nat): Value
    requires Good(c) && k < |c.args| && Shaped(p)
  {
    At(p, WidthOf(TypeAt(c, k)), SlotAt(c, k))
  }

  /** The place among the expected parameters, or their number. */
  function PlaceOf(args: seq<nat>, param: nat): (k: nat)
    ensures k <= |args| && (k < |args| ==> args[k] == param)
    ensures forall j | 0 <= j < k :: args[j] != param
  {
    if args == [] then 0 else if args[0] == param then 0 else PlaceOf(args[1..], param) + 1
  }

  /* The parser */

  function OnBegin(c: Call, s: State, tag: string): State {
    if ':' in tag then s.(value := "")
    else
      var i := Find(c.data.params, tag);
      s.(param := if i >= |c.data.params| then NO_PARAM else i, value := "")
  }

  function OnContent(s: State, text: string): State {
    if s.param != NO_PARAM then s.(value := s.value + text) else s
  }

  function OnEnd(c: Call, s: State): (n: State)
    requires Good(c) && Shaped(s.result)
    ensures Shaped(n.result)
  {
    if s.param == NO_PARAM then s
    else
      var k := PlaceOf(c.args, s.param);
      if k == |c.args| then s
      else
        State(NO_PARAM, "",
              Store(s.result, WidthOf(TypeAt(c, k)), SlotAt(c, k), Read(c.data, TypeAt(c, k), s.value)))
  }

  function OnEvent(c: Call, s: State, e: Event): (n: State)
    requires Good(c) && Shaped(s.result)
    ensures Shaped(n.result)
  {
    match e
    case Begin(tag) => OnBegin(c, s, tag)
    case Content(text) => OnContent(s, text)
    case End(_) => OnEnd(c, s)
  }

  function Run(c: Call, s: State, events: seq<Event>): (n: State)
    requires Good(c) && Shaped(s.result)
    ensures Shaped(n.result)
    decreases events
  {
    if events == [] then s else Run(c, OnEvent(c, s, events[0]), events[1..])
  }

  /* Documents */

  /** An element of a parameter, its text in any number of pieces, or an event of no interest. */
  datatype Piece = Noise(e: Event) | Element(name: string, chunks: seq<string>)

  function Joined(chunks: seq<string>): string {
    if chunks == [] then "" else chunks[0] + Joined(chunks[1..])
  }

  function Contents(chunks: seq<string>): seq<Event> {
    if chunks == [] then [] else [Content(chunks[0])] + Contents(chunks[1..])
  }

  function EventsOf(p: Piece): seq<Event> {
    match p
    case Noise(e) => [e]
    case Element(name, chunks) => [Begin(name)] + Contents(chunks) + [End(name)]
  }

  function Flatten(doc: seq<Piece>): seq<Event> {
    if doc == [] then [] else EventsOf(doc[0]) + Flatten(doc[1..])
  }

  /** Text, the end of any element, and the start of one that is not a parameter of the call:
      a name that is unknown, or known to the service but not expected here. */
  predicate IsNoise(c: Call, e: Event) {
    e.Begin? ==> ':' in e.tag || Find(c.data.params, e.tag) !in c.args
  }

  /** No parameter of the call is being read; one that is not expected may be. */
  predicate Idle(c: Call, s: State) {
    s.param !in c.args
  }

  /** Element `p` gives parameter `k` of the call: its name in any case, and its text. */
  predicate Gives(c: Call, p: Params, e: Piece, k: nat)
    requires Good(c) && Shaped(p) && k < |c.args|
  {
    && e.Element? && Same(c.data.params[c.args[k]], e.name) && ':' !in e.name
    && Writable(c.data, TypeAt(c, k), ValueAt(c, p, k))
    && Joined(e.chunks) == Written(c.data, TypeAt(c, k), ValueAt(c, p, k))
  }

  /** Every element of the document that names a parameter of the call gives it. */
  predicate OnlyParams(c: Call, p: Params, doc: seq<Piece>)
    requires Good(c) && Shaped(p)
  {
    forall i | 0 <= i < |doc| :: Proper(c, p, doc[i])
  }

  predicate Proper(c: Call, p: Params, e: Piece)
    requires Good(c) && Shaped(p)
  {
    if e.Noise? then IsNoise(c, e.e) else exists k | 0 <= k < |c.args| :: Gives(c, p, e, k)
  }

  predicate Given(c: Call, p: Params, doc: seq<Piece>, k: nat)
    requires Good(c) && Shaped(p) && k < |c.args|
  {
    exists i | 0 <= i < |doc| :: Gives(c, p, doc[i], k)
  }

  /* One element */

  lemma {:induction false} RunOn(c: Call, s: State, a: seq<Event>, b: seq<Event>)
    requires Good(c) && Shaped(s.result)
    ensures Run(c, s, a + b) == Run(c, Run(c, s, a), b)
    decreases a
  {
    if a == [] {
      assert a + b == b;
    } else {
      assert (a + b)[1..] == a[1..] + b;
      RunOn(c, OnEvent(c, s, a[0]), a[1..], b);
    }
  }

  lemma {:induction false} RunContents(c: Call, s: State, chunks: seq<string>)
    requires Good(c) && Shaped(s.result) && s.param != NO_PARAM
    ensures Run(c, s, Contents(chunks)) == s.(value := s.value + Joined(chunks))
    decreases chunks
  {
    if chunks == [] {
      assert s.value + "" == s.value;
    } else {
      var n := OnContent(s, chunks[0]);
      assert Contents(chunks)[1..] == Contents(chunks[1..]);
      RunContents(c, n, chunks[1..]);
      assert s.value + chunks[0] + Joined(chunks[1..]) == s.value + Joined(chunks);
    }
  }

  /** A name is found where it is, whatever its case. */
  lemma FindsParam(v: seq<string>, i: nat, name: string)
    requires Sorted(v) && i < |v| && Same(v[i], name)
    ensures Find(v, name) == i
  {
    var j := Find(v, name);
    if j < i {
      assert StrLess(Lower(v[j]), Lower(v[i]));
      Irreflexive(Lower(name));
    }
  }

  lemma Irreflexive(s: string)
    ensures !StrLess(s, s)
  {
    StrTotal(s, s);
  }

  function Stored(c: Call, p: Params, r: Params, k: nat): (q: Params)
    requires Good(c) && Shaped(p) && Shaped(r) && k < |c.args|
    requires Writable(c.data, TypeAt(c, k), ValueAt(c, p, k))
    ensures Shaped(q)
  {
    var t := TypeAt(c, k);
    Store(r, WidthOf(t), SlotAt(c, k), Read(c.data, t, Written(c.data, t, ValueAt(c, p, k))))
  }

  lemma PlaceOfArg(args: seq<nat>, k: nat)
    requires k < |args| && forall i, j | 0 <= i < j < |args| :: args[i] != args[j]
    ensures PlaceOf(args, args[k]) == k
  {
  }

  /** A parameter's element puts what its text says into the parameter's slot, and nothing else. */
  lemma ElementRuns(c: Call, p: Params, s: State, e: Piece, k: nat)
    requires Good(c) && Shaped(p) && Shaped(s.result)
    requires k < |c.args| && Gives(c, p, e, k)
    ensures Run(c, s, EventsOf(e)) == State(NO_PARAM, "", Stored(c, p, s.result, k))
  {
    var i := c.args[k];
    FindsParam(c.data.params, i, e.name);
    PlaceOfArg(c.args, k);
    var s1 := s.(param := i, value := "");
    var body := Contents(e.chunks);
    var s2 := s1.(value := "" + Joined(e.chunks));
    assert "" + Joined(e.chunks) == Joined(e.chunks);
    RunContents(c, s1, e.chunks);
    RunOn(c, s1, body, [End(e.name)]);
    RunOne(c, s2, End(e.name));
    RunFirst(c, s, Begin(e.name), body + [End(e.name)]);
    assert EventsOf(e) == [Begin(e.name)] + (body + [End(e.name)]);
  }

  lemma RunOne(c: Call, s: State, e: Event)
    requires Good(c) && Shaped(s.result)
    ensures Run(c, s, [e]) == OnEvent(c, s, e)
  {
    assert [e][1..] == [];
  }

  lemma RunFirst(c: Call, s: State, e: Event, rest: seq<Event>)
    requires Good(c) && Shaped(s.result)
    ensures Run(c, s, [e] + rest) == Run(c, OnEvent(c, s, e), rest)
  {
    assert ([e] + rest)[1..] == rest;
  }

  lemma NoiseRuns(c: Call, s: State, e: Event)
    requires Good(c) && Shaped(s.result) && Idle(c, s) && IsNoise(c, e)
    ensures Idle(c, Run(c, s, [e])) && Run(c, s, [e]).result == s.result
  {
    RunOne(c, s, e);
    NoneIsIdle(c);
  }

  lemma NoneIsIdle(c: Call)
    requires Good(c)
    ensures NO_PARAM !in c.args
  {
  }

  /* A whole document */

  predicate HasSlot(c: Call, k: nat, w: Width, i: nat)
    requires Good(c) && k < |c.args|
  {
    WidthOf(TypeAt(c, k)) == w && SlotAt(c, k) == i
  }

  lemma {:induction false} CountGrows(d: Data, args: seq<nat>, j: nat, k: nat, w: Width)
    requires j <= k <= |args| && AreParams(d, args)
    ensures Count(d, args, j, w) <= Count(d, args, k, w)
    decreases k
  {
    if j < k { CountGrows(d, args, j, k - 1, w); }
  }

  /** No two parameters share a slot. */
  lemma SlotsApart(c: Call, j: nat, k: nat, w: Width, i: nat)
    requires Good(c) && j < |c.args| && k < |c.args| && HasSlot(c, j, w, i) && HasSlot(c, k, w, i)
    ensures j == k
  {
    if j < k {
      CountGrows(c.data, c.args, j + 1, k, w);
    } else if k < j {
      CountGrows(c.data, c.args, k + 1, j, w);
    }
  }

  /** Slot `k` has what is read from the parameter's text. */
  predicate Holds(c: Call, p: Params, r: Params, k: nat)
    requires Good(c) && Shaped(p) && Shaped(r) && k < |c.args|
  {
    var t, v := TypeAt(c, k), ValueAt(c, p, k);
    Writable(c.data, t, v) && ValueAt(c, r, k) == Read(c.data, t, Written(c.data, t, v))
  }

  /** No parameter with that slot is given. */
  predicate Untouched(c: Call, p: Params, doc: seq<Piece>, w: Width, i: nat)
    requires Good(c) && Shaped(p)
  {
    forall k | 0 <= k < |c.args| && HasSlot(c, k, w, i) :: !Given(c, p, doc, k)
  }

  lemma {:induction false} DocumentRuns(c: Call, p: Params, s: State, doc: seq<Piece>)
    requires Good(c) && Shaped(p) && Shaped(s.result) && Idle(c, s) && OnlyParams(c, p, doc)
    ensures var n := Run(c, s, Flatten(doc));
      && Idle(c, n)
      && (forall k | 0 <= k < |c.args| && Given(c, p, doc, k) :: Holds(c, p, n.result, k))
      && forall w: Width, i: nat | i < MAX_PARAMS && Untouched(c, p, doc, w, i) :: At(n.result, w, i) == At(s.result, w, i)
    decreases doc
  {
    if doc != [] {
      var e, rest := doc[0], doc[1..];
      assert Proper(c, p, e);
      forall i | 0 <= i < |rest| ensures Proper(c, p, rest[i]) { assert rest[i] == doc[i + 1]; }
      RunOn(c, s, EventsOf(e), Flatten(rest));
      var m := Run(c, s, EventsOf(e));
      if e.Noise? {
        NoiseRuns(c, s, e.e);
      } else {
        var k :| 0 <= k < |c.args| && Gives(c, p, e, k);
        ElementRuns(c, p, s, e, k);
        NoneIsIdle(c);
      }
      DocumentRuns(c, p, m, rest);
      DocumentStep(c, p, s.result, m.result, Run(c, m, Flatten(rest)).result, doc);
    }
  }

  lemma GivenSplit(c: Call, p: Params, doc: seq<Piece>, k: nat)
    requires Good(c) && Shaped(p) && k < |c.args| && doc != []
    ensures Given(c, p, doc, k) <==> Gives(c, p, doc[0], k) || Given(c, p, doc[1..], k)
  {
    if Given(c, p, doc, k) {
      var i :| 0 <= i < |doc| && Gives(c, p, doc[i], k);
      if i > 0 { assert doc[1..][i - 1] == doc[i]; }
    }
    if Given(c, p, doc[1..], k) {
      var i :| 0 <= i < |doc[1..]| && Gives(c, p, doc[1..][i], k);
      assert doc[i + 1] == doc[1..][i];
    }
  }

  /** An element gives one parameter only. */
  lemma GivesOne(c: Call, p: Params, e: Piece, j: nat, k: nat)
    requires Good(c) && Shaped(p) && j < |c.args| && k < |c.args| && Gives(c, p, e, j) && Gives(c, p, e, k)
    ensures j == k
  {
    FindsParam(c.data.params, c.args[j], e.name);
    FindsParam(c.data.params, c.args[k], e.name);
  }

  /** The slot of a parameter that is not given again keeps its value. */
  lemma HeldOver(c: Call, p: Params, m: Params, n: Params, rest: seq<Piece>, k: nat)
    requires Good(c) && Shaped(p) && Shaped(m) && Shaped(n) && k < |c.args|
    requires Holds(c, p, m, k) && !Given(c, p, rest, k)
    requires forall w: Width, i: nat | i < MAX_PARAMS && Untouched(c, p, rest, w, i) :: At(n, w, i) == At(m, w, i)
    ensures Holds(c, p, n, k)
  {
    var w, i := WidthOf(TypeAt(c, k)), SlotAt(c, k);
    forall j | 0 <= j < |c.args| && HasSlot(c, j, w, i) ensures !Given(c, p, rest, j) { SlotsApart(c, j, k, w, i); }
    assert Untouched(c, p, rest, w, i);
  }

  predicate FirstRan(c: Call, p: Params, s: Params, m: Params, e: Piece)
    requires Good(c) && Shaped(p) && Shaped(s) && Shaped(m)
  {
    if e.Noise? then m == s
    else exists k | 0 <= k < |c.args| :: Gives(c, p, e, k) && m == Stored(c, p, s, k)
  }

  /** From the first piece and the rest to the whole. */
  lemma DocumentStep(c: Call, p: Params, s: Params, m: Params, n: Params, doc: seq<Piece>)
    requires Good(c) && Shaped(p) && Shaped(s) && Shaped(m) && Shaped(n) && doc != []
    requires FirstRan(c, p, s, m, doc[0])
    requires forall k | 0 <= k < |c.args| && Given(c, p, doc[1..], k) :: Holds(c, p, n, k)
    requires forall w: Width, i: nat | i < MAX_PARAMS && Untouched(c, p, doc[1..], w, i) :: At(n, w, i) == At(m, w, i)
    ensures forall k | 0 <= k < |c.args| && Given(c, p, doc, k) :: Holds(c, p, n, k)
    ensures forall w: Width, i: nat | i < MAX_PARAMS && Untouched(c, p, doc, w, i) :: At(n, w, i) == At(s, w, i)
  {
    forall k | 0 <= k < |c.args| && Given(c, p, doc, k) ensures Holds(c, p, n, k) {
      GivenSplit(c, p, doc, k);
      if !Given(c, p, doc[1..], k) {
        var j :| 0 <= j < |c.args| && Gives(c, p, doc[0], j) && m == Stored(c, p, s, j);
        GivesOne(c, p, doc[0], j, k);
        HeldOver(c, p, m, n, doc[1..], k);
      }
    }
    forall w: Width, i: nat | i < MAX_PARAMS && Untouched(c, p, doc, w, i) ensures At(n, w, i) == At(s, w, i) {
      UntouchedSplit(c, p, s, m, doc, w, i);
    }
  }

  lemma UntouchedSplit(c: Call, p: Params, s: Params, m: Params, doc: seq<Piece>, w: Width, i: nat)
    requires Good(c) && Shaped(p) && Shaped(s) && Shaped(m) && doc != [] && i < MAX_PARAMS
    requires FirstRan(c, p, s, m, doc[0]) && Untouched(c, p, doc, w, i)
    ensures Untouched(c, p, doc[1..], w, i) && At(m, w, i) == At(s, w, i)
  {
    forall k | 0 <= k < |c.args| && HasSlot(c, k, w, i) ensures !Given(c, p, doc[1..], k) { GivenSplit(c, p, doc, k); }
    if doc[0].Element? {
      var k :| 0 <= k < |c.args| && Gives(c, p, doc[0], k) && m == Stored(c, p, s, k);
      GivenSplit(c, p, doc, k);
      assert !HasSlot(c, k, w, i);
    }
  }

  /** What a document that gives every parameter leaves in the slots: the parameters as they were, exactly
      where they are of the values that come back; and any slot of no parameter as it was before. */
  lemma CallRoundTrip(c: Call, p: Params, r: Params, doc: seq<Piece>)
    requires Good(c) && Shaped(p) && Shaped(r) && OnlyParams(c, p, doc)
    requires forall k | 0 <= k < |c.args| :: Given(c, p, doc, k)
    ensures var n := Run(c, State(NO_PARAM, "", r), Flatten(doc)).result;
      && (forall k | 0 <= k < |c.args| ::
        Writable(c.data, TypeAt(c, k), ValueAt(c, p, k))
        && (ValueAt(c, n, k) == ValueAt(c, p, k) <==> Restorable(c.data, TypeAt(c, k), ValueAt(c, p, k))))
      && forall w: Width, i: nat | i < MAX_PARAMS && (forall k | 0 <= k < |c.args| :: !HasSlot(c, k, w, i)) ::
        At(n, w, i) == At(r, w, i)
  {
    var n := Run(c, State(NO_PARAM, "", r), Flatten(doc)).result;
    NoneIsIdle(c);
    DocumentRuns(c, p, State(NO_PARAM, "", r), doc);
    forall k | 0 <= k < |c.args|
      ensures Writable(c.data, TypeAt(c, k), ValueAt(c, p, k))
      ensures ValueAt(c, n, k) == ValueAt(c, p, k) <==> Restorable(c.data, TypeAt(c, k), ValueAt(c, p, k))
    {
      assert Given(c, p, doc, k) && Holds(c, p, n, k);
      ValueRoundTrip(c.data, TypeAt(c, k), ValueAt(c, p, k));
    }
    forall w: Width, i: nat | i < MAX_PARAMS && (forall k | 0 <= k < |c.args| :: !HasSlot(c, k, w, i))
      ensures At(n, w, i) == At(r, w, i)
    {
      assert Untouched(c, p, doc, w, i);
    }
  }
}

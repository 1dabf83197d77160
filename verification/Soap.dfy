/** Writing a call, and the parser, as they run. */
module Soap {
  import opened Common
  import opened Decimal
  import opened Keys
  import opened SoapModel
  import opened SoapDocument

  /** Binary search, which relies on the names being sorted. */
  method FindName(v: seq<string>, name: string) returns (i: nat)
    requires Sorted(v)
    ensures i == Find(v, name)
  {
    var low, high := 0, |v|;
    while low < high
      invariant low <= high <= |v|
      invariant forall j | 0 <= j < low :: StrLess(Lower(v[j]), Lower(name))
      invariant forall j | high <= j < |v| :: StrLess(Lower(name), Lower(v[j]))
    {
      var mid := (low + high) / 2;
      if Same(v[mid], name) {
        FindsParam(v, mid, name);
        return mid;
      }
      StrTotal(Lower(v[mid]), Lower(name));
      if StrLess(Lower(name), Lower(v[mid])) {
        forall j | mid <= j < |v| ensures StrLess(Lower(name), Lower(v[j])) {
          if mid < j { StrTrans(Lower(name), Lower(v[mid]), Lower(v[j])); }
        }
        high := mid;
      } else {
        forall j | 0 <= j <= mid ensures StrLess(Lower(v[j]), Lower(name)) {
          if j < mid { StrTrans(Lower(v[j]), Lower(v[mid]), Lower(name)); }
        }
        low := mid + 1;
      }
    }
    StrTotal(Lower(name), Lower(name));
    assert Find(v, name) == |v|;
    i := |v|;
  }

  method FindEnum(s: string, alternatives: seq<string>) returns (i: nat)
    ensures i == ParseEnum(s, alternatives)
  {
    i := 0;
    while i < |alternatives|
      invariant i <= |alternatives| && forall j | 0 <= j < i :: alternatives[j] != s
    {
      if s == alternatives[i] {
        return;
      }
      i := i + 1;
    }
  }

  /** The elements of a document, in order. */
  function Elements(doc: seq<Piece>): seq<Piece> {
    if doc == [] then []
    else Elements(doc[..|doc| - 1]) + (if doc[|doc| - 1].Element? then [doc[|doc| - 1]] else [])
  }

  /** The element of parameter `k`, its text in one piece. */
  function ElementAt(c: Call, p: Params, k: nat): (e: Piece)
    requires Good(c) && Shaped(p) && k < |c.args| && Writable(c.data, TypeAt(c, k), ValueAt(c, p, k))
    ensures Gives(c, p, e, k) && e.name == c.data.params[c.args[k]]
  {
    var name := c.data.params[c.args[k]];
    var text := Written(c.data, TypeAt(c, k), ValueAt(c, p, k));
    assert Joined([text]) == text + Joined([]) == text;
    Element(name, [text])
  }

  predicate AllWritable(c: Call, p: Params)
    requires Good(c) && Shaped(p)
  {
    forall k | 0 <= k < |c.args| :: Writable(c.data, TypeAt(c, k), ValueAt(c, p, k))
  }

  /** How many slots of each width have been passed. */
  datatype Pointers = Pointers(p8: nat, p16: nat, p32: nat, pstr: nat) {
    function Of(w: Width): nat {
      match w case Byte => p8 case Short => p16 case Int => p32 case Text => pstr
    }

    function Past(w: Width): Pointers {
      match w
      case Byte => this.(p8 := p8 + 1)
      case Short => this.(p16 := p16 + 1)
      case Int => this.(p32 := p32 + 1)
      case Text => this.(pstr := pstr + 1)
    }
  }

  predicate Counted(c: Call, k: nat, at: Pointers)
    requires Good(c) && k <= |c.args|
  {
    forall w: Width :: at.Of(w) == Count(c.data, c.args, k, w)
  }

  /** The text of the next value of a type, and the pointers past it. */
  method NextText(d: Data, t: Type, p: Params, at: Pointers) returns (text: string, next: Pointers)
    requires Shaped(p) && at.Of(WidthOf(t)) < MAX_PARAMS && Writable(d, t, At(p, WidthOf(t), at.Of(WidthOf(t))))
    ensures text == Written(d, t, At(p, WidthOf(t), at.Of(WidthOf(t)))) && next == at.Past(WidthOf(t))
  {
    next := at;
    match t {
      case STRING =>
        text := p.strings[next.pstr];
        next := next.(pstr := next.pstr + 1);
      case ENUM(which) =>
        text := d.enums[which][p.ints[next.p32]];
        next := next.(p32 := next.p32 + 1);
      case BOOL =>
        text := if p.bytes[next.p8] != 0 then "1" else "0";
        next := next.(p8 := next.p8 + 1);
      case I8 =>
        text := Signed(p.bytes[next.p8]);
        next := next.(p8 := next.p8 + 1);
      case UI8 =>
        text := Digits(p.bytes[next.p8]);
        next := next.(p8 := next.p8 + 1);
      case I16 =>
        text := Signed(p.shorts[next.p16]);
        next := next.(p16 := next.p16 + 1);
      case UI16 =>
        text := Digits(p.shorts[next.p16]);
        next := next.(p16 := next.p16 + 1);
      case I32 =>
        text := Signed(if p.ints[next.p32] < 0x8000_0000 then p.ints[next.p32] else p.ints[next.p32] - UINT32);
        next := next.(p32 := next.p32 + 1);
      case UI32 =>
        text := Digits(p.ints[next.p32]);
        next := next.(p32 := next.p32 + 1);
    }
  }

  /** The elements of the first `k` parameters, in order. */
  function ElementsTo(c: Call, p: Params, k: nat): (es: seq<Piece>)
    requires Good(c) && Shaped(p) && AllWritable(c, p) && k <= |c.args|
    ensures |es| == k && forall j | 0 <= j < k :: es[j] == ElementAt(c, p, j)
  {
    if k == 0 then [] else ElementsTo(c, p, k - 1) + [ElementAt(c, p, k - 1)]
  }

  /** The document has those elements, and nothing else of interest. */
  ghost predicate WrittenSoFar(c: Call, p: Params, doc: seq<Piece>, k: nat)
    requires Good(c) && Shaped(p) && AllWritable(c, p) && k <= |c.args|
  {
    && OnlyParams(c, p, doc)
    && Elements(doc) == ElementsTo(c, p, k)
    && forall j | 0 <= j < k :: Given(c, p, doc, j)
  }

  /** The element of parameter `k`, and white space. */
  method AddParam(c: Call, p: Params, before: seq<Piece>, k: nat, pointers: Pointers)
    returns (doc: seq<Piece>, next: Pointers)
    requires Good(c) && Shaped(p) && AllWritable(c, p) && k < |c.args|
    requires Counted(c, k, pointers) && WrittenSoFar(c, p, before, k)
    ensures Counted(c, k + 1, next) && WrittenSoFar(c, p, doc, k + 1) && Grown(before, doc)
  {
    var param := c.args[k];
    doc := before + [Noise(Content(" "))];
    NoiseWritten(c, p, before, [Noise(Content(" "))], k);
    var text;
    text, next := NextParam(c, p, k, pointers);
    doc := doc + [Element(c.data.params[param], [text])];
    ElementWritten(c, p, before + [Noise(Content(" "))], k);
    NoiseWritten(c, p, doc, [Noise(Content("\r\n"))], k + 1);
    doc := doc + [Noise(Content("\r\n"))];
  }

  method NextParam(c: Call, p: Params, k: nat, pointers: Pointers) returns (text: string, next: Pointers)
    requires Good(c) && Shaped(p) && AllWritable(c, p) && k < |c.args| && Counted(c, k, pointers)
    ensures Counted(c, k + 1, next) && Element(c.data.params[c.args[k]], [text]) == ElementAt(c, p, k)
  {
    assert SlotAt(c, k) < MAX_PARAMS && Writable(c.data, TypeAt(c, k), ValueAt(c, p, k));
    var t := c.data.types[c.args[k]];
    assert pointers.Of(WidthOf(t)) == SlotAt(c, k);
    text, next := NextText(c.data, t, p, pointers);
    forall w: Width ensures next.Of(w) == Count(c.data, c.args, k + 1, w) { assert pointers.Of(w) == Count(c.data, c.args, k, w); }
  }

  /** What was added brings no element but those of parameters. */
  ghost predicate Grown(before: seq<Piece>, doc: seq<Piece>) {
    before <= doc && forall i | |before| <= i < |doc| :: doc[i].Noise? ==> doc[i].e.Content?
  }

  /** An envelope, in it a body, and in that one element, the action's or its response's, open before
      the parameters and closed after them. */
  ghost predicate Enveloped(doc: seq<Piece>, tag: string) {
    && |doc| >= 11
    && doc[0] == Noise(Begin("s:Envelope")) && doc[2] == Noise(Begin("s:Body")) && doc[3] == Noise(Begin(tag))
    && doc[|doc| - 6] == Noise(End(tag)) && doc[|doc| - 4] == Noise(End("s:Body"))
    && doc[|doc| - 2] == Noise(End("s:Envelope"))
    && forall i | 4 <= i < |doc| - 6 :: doc[i].Noise? ==> doc[i].e.Content?
  }

  /** The body of a call, or of its response. */
  method CreateBody(c: Call, action: string, response: bool, p: Params) returns (doc: seq<Piece>)
    requires Good(c) && Shaped(p) && AllWritable(c, p)
    ensures WrittenSoFar(c, p, doc, |c.args|)
    ensures Enveloped(doc, if response then "u:" + action + "Response" else "u:" + action)
  {
    var tag := "u:" + action;
    if response {
      tag := "u:" + action + "Response";
    }
    assert tag[1] == ':';
    doc := Opening(tag);
    OpeningWritten(c, p, tag);
    doc := AddParams(c, p, doc);
    ClosingWritten(c, p, doc, tag);
    doc := doc + Closing(tag);
  }

  function Opening(tag: string): seq<Piece> {
    [Noise(Begin("s:Envelope")), Noise(Content("\r\n ")), Noise(Begin("s:Body")), Noise(Begin(tag)), Noise(Content("\r\n"))]
  }

  function Closing(tag: string): seq<Piece> {
    [Noise(End(tag)), Noise(Content("\r\n")), Noise(End("s:Body")), Noise(Content("\r\n")),
     Noise(End("s:Envelope")), Noise(Content("\r\n"))]
  }

  lemma OpeningWritten(c: Call, p: Params, tag: string)
    requires Good(c) && Shaped(p) && AllWritable(c, p) && ':' in tag
    ensures WrittenSoFar(c, p, Opening(tag), 0)
  {
    assert "s:Envelope"[1] == "s:Body"[1] == ':';
    NoiseWritten(c, p, [], Opening(tag), 0);
    assert [] + Opening(tag) == Opening(tag);
  }

  lemma ClosingWritten(c: Call, p: Params, params: seq<Piece>, tag: string)
    requires Good(c) && Shaped(p) && AllWritable(c, p)
    requires WrittenSoFar(c, p, params, |c.args|) && Grown(Opening(tag), params)
    ensures WrittenSoFar(c, p, params + Closing(tag), |c.args|) && Enveloped(params + Closing(tag), tag)
  {
    NoiseWritten(c, p, params, Closing(tag), |c.args|);
    Closed(Opening(tag), params, Closing(tag), tag);
  }

  lemma Closed(opening: seq<Piece>, params: seq<Piece>, closing: seq<Piece>, tag: string)
    requires Grown(opening, params) && |opening| == 5 && |closing| == 6
    requires opening[0] == Noise(Begin("s:Envelope")) && opening[2] == Noise(Begin("s:Body"))
    requires opening[3] == Noise(Begin(tag)) && opening[4] == Noise(Content("\r\n"))
    requires closing[0] == Noise(End(tag)) && closing[2] == Noise(End("s:Body")) && closing[4] == Noise(End("s:Envelope"))
    ensures Enveloped(params + closing, tag)
  {
  }

  method AddParams(c: Call, p: Params, opening: seq<Piece>) returns (doc: seq<Piece>)
    requires Good(c) && Shaped(p) && AllWritable(c, p) && WrittenSoFar(c, p, opening, 0)
    ensures WrittenSoFar(c, p, doc, |c.args|) && Grown(opening, doc)
  {
    doc := opening;
    var pointers := Pointers(0, 0, 0, 0);
    for k := 0 to |c.args|
      invariant Counted(c, k, pointers) && WrittenSoFar(c, p, doc, k) && Grown(opening, doc)
    {
      doc, pointers := AddParam(c, p, doc, k, pointers);
    }
  }

  /** The parser makes the call's parameters of its body again, slot by slot, where they are of the
      values that come back. */
  lemma BodyParses(c: Call, p: Params, r: Params, doc: seq<Piece>)
    requires Good(c) && Shaped(p) && Shaped(r) && AllWritable(c, p) && WrittenSoFar(c, p, doc, |c.args|)
    ensures var n := Run(c, SoapDocument.State(NO_PARAM, "", r), Flatten(doc)).result;
      forall k | 0 <= k < |c.args| ::
        ValueAt(c, n, k) == ValueAt(c, p, k) <==> Restorable(c.data, TypeAt(c, k), ValueAt(c, p, k))
  {
    CallRoundTrip(c, p, r, doc);
  }

  lemma NoiseWritten(c: Call, p: Params, doc: seq<Piece>, a: seq<Piece>, k: nat)
    requires Good(c) && Shaped(p) && AllWritable(c, p) && k <= |c.args|
    requires (doc == [] && k == 0) || WrittenSoFar(c, p, doc, k)
    requires forall i | 0 <= i < |a| :: a[i].Noise? && IsNoise(c, a[i].e)
    ensures WrittenSoFar(c, p, doc + a, k)
  {
    NoiseAdded(c, p, doc, a);
  }

  lemma ElementWritten(c: Call, p: Params, doc: seq<Piece>, k: nat)
    requires Good(c) && Shaped(p) && AllWritable(c, p) && k < |c.args| && WrittenSoFar(c, p, doc, k)
    ensures WrittenSoFar(c, p, doc + [ElementAt(c, p, k)], k + 1)
  {
    ElementAdded(c, p, doc, ElementAt(c, p, k), k);
  }

  lemma {:induction false} ElementsJoined(a: seq<Piece>, b: seq<Piece>)
    ensures Elements(a + b) == Elements(a) + Elements(b)
  {
    if b == [] {
      assert a + b == a;
    } else {
      var i := |b| - 1;
      assert (a + b)[..|a + b| - 1] == a + b[..i];
      ElementsJoined(a, b[..i]);
    }
  }

  lemma {:induction false} NoElements(a: seq<Piece>)
    requires forall i | 0 <= i < |a| :: a[i].Noise?
    ensures Elements(a) == []
  {
    if a != [] { NoElements(a[..|a| - 1]); }
  }

  lemma StillGiven(c: Call, p: Params, doc: seq<Piece>, a: seq<Piece>, k: nat)
    requires Good(c) && Shaped(p) && k < |c.args| && Given(c, p, doc, k)
    ensures Given(c, p, doc + a, k)
  {
    var i :| 0 <= i < |doc| && Gives(c, p, doc[i], k);
    assert (doc + a)[i] == doc[i];
  }

  lemma OnlyMore(c: Call, p: Params, doc: seq<Piece>, a: seq<Piece>)
    requires Good(c) && Shaped(p) && OnlyParams(c, p, doc) && OnlyParams(c, p, a)
    ensures OnlyParams(c, p, doc + a)
    ensures forall j | 0 <= j < |c.args| && Given(c, p, doc, j) :: Given(c, p, doc + a, j)
  {
    forall i | 0 <= i < |doc + a| ensures Proper(c, p, (doc + a)[i]) {
      if i >= |doc| { assert (doc + a)[i] == a[i - |doc|]; }
    }
    forall j | 0 <= j < |c.args| && Given(c, p, doc, j) ensures Given(c, p, doc + a, j) { StillGiven(c, p, doc, a, j); }
  }

  lemma NoiseAdded(c: Call, p: Params, doc: seq<Piece>, a: seq<Piece>)
    requires Good(c) && Shaped(p) && OnlyParams(c, p, doc)
    requires forall i | 0 <= i < |a| :: a[i].Noise? && IsNoise(c, a[i].e)
    ensures OnlyParams(c, p, doc + a) && Elements(doc + a) == Elements(doc)
    ensures forall j | 0 <= j < |c.args| && Given(c, p, doc, j) :: Given(c, p, doc + a, j)
  {
    OnlyMore(c, p, doc, a);
    ElementsJoined(doc, a);
    NoElements(a);
  }

  lemma ElementAdded(c: Call, p: Params, doc: seq<Piece>, e: Piece, k: nat)
    requires Good(c) && Shaped(p) && OnlyParams(c, p, doc) && k < |c.args| && Gives(c, p, e, k)
    ensures OnlyParams(c, p, doc + [e]) && Elements(doc + [e]) == Elements(doc) + [e] && Given(c, p, doc + [e], k)
    ensures forall j | 0 <= j < |c.args| && Given(c, p, doc, j) :: Given(c, p, doc + [e], j)
  {
    OnlyMore(c, p, doc, [e]);
    assert (doc + [e])[..|doc|] == doc && (doc + [e])[|doc|] == e;
  }

  class Parser {
    const call: Call
    var result: Params
    var param: nat
    var value: string

    ghost function State(): SoapDocument.State
      reads this
    {
      SoapDocument.State(param, value, result)
    }

    constructor (call: Call, result: Params)
      ensures this.call == call && State() == SoapDocument.State(NO_PARAM, "", result)
    {
      this.call, this.result, param, value := call, result, NO_PARAM, "";
    }

    method OnBegin(tag: string)
      requires Good(call)
      modifies this`param, this`value
      ensures State() == SoapDocument.OnBegin(call, old(State()), tag)
    {
      value := "";
      if ':' in tag {
        return;
      }
      param := FindName(call.data.params, tag);
      if param >= |call.data.params| {
        param := NO_PARAM;
      }
    }

    method OnContent(content: string)
      modifies this`value
      ensures State() == SoapDocument.OnContent(old(State()), content)
    {
      if param != NO_PARAM {
        value := value + content;
      }
    }

    method OnEnd()
      requires Good(call) && Shaped(result)
      modifies this
      ensures State() == SoapDocument.OnEnd(call, old(State()))
    {
      if param == NO_PARAM {
        return;
      }
      var at := Pointers(0, 0, 0, 0);
      for k := 0 to |call.args|
        invariant Counted(call, k, at) && forall j | 0 <= j < k :: call.args[j] != param
        invariant State() == old(State())
      {
        var expected := call.args[k];
        var t := call.data.types[expected];
        if expected == param {
          assert PlaceOf(call.args, param) == k && at.Of(WidthOf(t)) == SlotAt(call, k);
          StoreValue(t, at);
          param := NO_PARAM;
          value := "";
          return;
        }
        at := at.Past(WidthOf(t));
      }
    }

    /** Reads the value and puts it into the next slot of its width. */
    method StoreValue(t: Type, at: Pointers)
      requires Good(call) && Shaped(result) && Readable(call.data, t) && at.Of(WidthOf(t)) < MAX_PARAMS
      modifies this`result
      ensures result == Store(old(result), WidthOf(t), at.Of(WidthOf(t)), Read(call.data, t, value))
    {
      match t {
        case BOOL =>
          result := result.(bytes := result.bytes[at.p8 := if ParseBool(value) then 1 else 0]);
        case STRING =>
          result := result.(strings := result.strings[at.pstr := value]);
        case ENUM(which) =>
          var n := FindEnum(value, call.data.enums[which]);
          result := result.(ints := result.ints[at.p32 := n]);
        case I8 =>
          result := result.(bytes := result.bytes[at.p8 := StrToL(value) % 0x100]);
        case UI8 =>
          result := result.(bytes := result.bytes[at.p8 := StrToUl(value) % 0x100]);
        case I16 =>
          result := result.(shorts := result.shorts[at.p16 := StrToL(value) % 0x1_0000]);
        case UI16 =>
          result := result.(shorts := result.shorts[at.p16 := StrToUl(value) % 0x1_0000]);
        case I32 =>
          result := result.(ints := result.ints[at.p32 := StrToL(value) % UINT32]);
        case UI32 =>
          result := result.(ints := result.ints[at.p32 := StrToUl(value) % UINT32]);
      }
    }
  }
}

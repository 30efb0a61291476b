/**
 Encoding and decoding undo each other.  A listener, a handler that accepts
 everything and owns no storage, hears exactly the events of the pruned tree;
 and what it heard, encoded again, is a shortest form of what was sent.
 */
module RoundTrip {
  import opened Wire
  import opened Message
  import opened Schema
  import opened Machine
  import Chunks
  import Framing
  import F = Floats

  /** An element width no element of either kind exceeds, and a destination, if any, that holds the array. */
  predicate Widest(l: Layout, signed: bool, count: nat) {
    l.lo <= -TWO63 && l.hi >= TWO64 - 1 && (l.into.Some? ==> IntsFit(l.into.value, signed, l.lo, l.hi, count))
  }

  /** A destination, if any, that holds the payload: bytes, or the doubles of a fixlen array. */
  predicate Ample(dst: Option<Dest>, wt: nat, n: nat) {
    dst.Some? ==> if wt == ARRAY_FIXLEN then FloatsFit(dst.value, n) else BytesFit(dst.value, n)
  }

  /** A handler that takes every field, walks every sequence and bounds nothing; its storage is large enough. */
  ghost predicate TakesAll(h: Handler) {
    && (forall v: int, log: seq<Call>, id: nat, wt: nat, sub: int, n: nat :: h.accept(v, log, id, wt, sub, n))
    && (forall v: int, log: seq<Call>, id: nat :: h.enter(v, log, id) == Same)
    && (forall v: int, log: seq<Call>, id: nat, n: nat, wt: nat, sub: int :: h.bound(v, log, id, n, wt, sub) < 0)
    && (forall v: int, log: seq<Call>, id: nat, signed: bool, count: nat ::
          Widest(h.layout(v, log, id, signed, count), signed, count))
    && (forall v: int, log: seq<Call>, id: nat, wt: nat, sub: int, n: nat ::
          Ample(h.place(v, log, id, wt, sub, n), wt, n))
  }

  /** Caps at the ceilings of the format. */
  predicate Roomy(cfg: Config) {
    cfg.arrayCap == ARRAY_MAX && cfg.textCap == FIXLEN_MAX && cfg.blobCap == FIXLEN_MAX
  }

  /** Such a handler, no table, and no cap that could speak. */
  ghost predicate Listens(cfg: Config) {
    TakesAll(cfg.handler) && cfg.visitor.Some? && !cfg.tabled && cfg.tables == [] && Roomy(cfg)
  }

  /** Between two fields of a message a listener is hearing. */
  ghost predicate Hears(cfg: Config, m: M) {
    Listens(cfg) && Ok(cfg, m) && m.phase == Walk && m.pending == Nothing && m.visitor.Some?
  }

  /** The events of the typed hooks, wherever their values went. */
  function Heard(calls: seq<Call>): seq<Event> {
    if calls == [] then []
    else
      var last := calls[|calls| - 1];
      Heard(calls[..|calls| - 1]) + if last.Call? then [last.event] else []
  }

  /** There are listeners. */
  function Listener(): Config {
    Config(
      Handler((_, _, _, _, _, _) => true, (_, _, _, _, _, _) => -1, (_, _, _) => Same,
              (_, _, _, _, _) => ANY_LAYOUT, (_, _, _, _, _, _) => None, _ => true),
      Some(0), [], false, ARRAY_MAX, FIXLEN_MAX, FIXLEN_MAX)
  }

  lemma ListenerListens()
    ensures Listens(Listener())
  {
  }

  lemma AsksWidest(h: Handler, v: int, log: seq<Call>, id: nat, signed: bool, count: nat)
    requires TakesAll(h)
    ensures Widest(h.layout(v, log, id, signed, count), signed, count)
  {
  }

  lemma PlacesAmply(h: Handler, v: int, log: seq<Call>, id: nat, wt: nat, sub: int, n: nat)
    requires TakesAll(h)
    ensures Ample(h.place(v, log, id, wt, sub, n), wt, n)
  {
  }

  // ----- one event on the wire --------------------------------------------------

  function WireTypeOf(e: Event): nat {
    match e
    case Int(_, signed, _) => if signed then SIGNED else UNSIGNED
    case Fixlen(_, _, _) => FIXLEN
    case Ints(_, signed, _) => if signed then ARRAY_SIGNED else ARRAY_UNSIGNED
    case Floats(_, _, _) => ARRAY_FIXLEN
    case Begin(_) => SEQUENCE_START
    case End => SEQUENCE_END
  }

  function IdOf(e: Event): nat {
    if e.End? then 0 else e.id
  }

  /** What its header announces. */
  function AnnouncedBy(e: Event): Pending {
    match e
    case Int(_, signed, _) => Scalar(signed)
    case Fixlen(_, st, payload) => Payload(st, |payload|)
    case Ints(_, signed, vs) => VArray(signed, |vs|)
    case Floats(_, st, payload) => FArray(st, FloatCount(st, payload))
    case _ => Nothing
  }

  function SubOf(e: Event): int {
    if e.Fixlen? || e.Floats? then e.st else -1
  }

  /** The words behind the header word, for what is announced. */
  function WordsFor(p: Pending): seq<byte> {
    match p
    case Payload(st, len) => Varint(len * 8 + st)
    case VArray(_, count) => Varint(count)
    case FArray(st, count) => Varint(count) + Varint(Width(st) * 8 + st)
    case _ => []
  }

  function Words(e: Event): seq<byte> {
    WordsFor(AnnouncedBy(e))
  }

  function Body(e: Event): seq<byte>
    requires EventOk(e)
  {
    match e
    case Int(_, signed, v) => Varint(Raw(signed, v))
    case Fixlen(_, _, payload) => payload
    case Ints(_, signed, vs) => Elements(signed, vs)
    case Floats(_, _, payload) => payload
    case _ => []
  }

  lemma EmitParts(e: Event)
    requires EventOk(e)
    ensures Emit(e) == Header(IdOf(e), WireTypeOf(e)) + Words(e) + Body(e)
  {
    match e
    case Floats(_, _, _) => FloatParts(e);
    case End => EndParts();
    case _ =>
      hide Varint, Elements, Header, EventOk;
      var h := Header(IdOf(e), WireTypeOf(e));
      assert h + [] == h;
  }

  lemma EndParts()
    ensures Emit(End) == Header(0, SEQUENCE_END) + [] + []
  {
    assert Varint(7) == [7] && [7] + [] == [7];
  }

  lemma FloatParts(e: Event)
    requires EventOk(e) && e.Floats?
    ensures Emit(e) == Header(e.id, ARRAY_FIXLEN) + Words(e) + Body(e)
  {
    hide Varint, Header;
    Glue(Header(e.id, ARRAY_FIXLEN), Varint(FloatCount(e.st, e.payload)), Varint(Width(e.st) * 8 + e.st));
  }

  // ----- reading it back ----------------------------------------------------------

  lemma Glue(a: seq<byte>, b: seq<byte>, c: seq<byte>)
    ensures a + b + c == a + (b + c) && (a + b + c)[|a|..] == b + c
  {
  }

  lemma {:induction false} ElementsInvert(signed: bool, vs: seq<int>, rest: seq<byte>, lo: int, hi: int)
    requires forall i | 0 <= i < |vs| :: ValueOk(signed, vs[i]) && lo <= vs[i] <= hi
    ensures ReadElems(Elements(signed, vs) + rest, |vs|, signed, lo, hi) == Elems(vs, |Elements(signed, vs)|, Through)
    decreases |vs|
  {
    hide Varint, ReadVarint, ZigzagEncode, ZigzagDecode;
    if vs != [] {
      var v, tail := vs[0], Elements(signed, vs[1..]);
      var raw := Raw(signed, v);
      RawCooked(signed, v, 0);
      ReadInvertsVarint(raw, tail + rest);
      ElementsInvert(signed, vs[1..], rest, lo, hi);
      assert vs == [v] + vs[1..];
      Glue(Varint(raw), tail, rest);
    }
  }

  /** An element outside the width ends the reading, whatever stands behind it. */
  lemma {:induction false} ElementOutside(signed: bool, vs: seq<int>, rest: seq<byte>, count: nat, lo: int, hi: int)
    requires forall i | 0 <= i < |vs| :: ValueOk(signed, vs[i])
    requires |vs| <= count && exists i | 0 <= i < |vs| :: !(lo <= vs[i] <= hi)
    ensures ReadElems(Elements(signed, vs) + rest, count, signed, lo, hi).end.Bad?
    decreases |vs|
  {
    hide Varint, ReadVarint, ZigzagEncode, ZigzagDecode;
    var v, tail := vs[0], Elements(signed, vs[1..]);
    var raw := Raw(signed, v);
    RawCooked(signed, v, 0);
    ReadInvertsVarint(raw, tail + rest);
    Glue(Varint(raw), tail, rest);
    if lo <= v <= hi {
      var k :| 0 <= k < |vs| && !(lo <= vs[k] <= hi);
      assert vs[k] == vs[1..][k - 1];
      ElementOutside(signed, vs[1..], rest, count - 1, lo, hi);
    }
  }

  /** The words of an event, read back as what its header announces. */
  lemma WordsInvert(cfg: Config, e: Event, rest: seq<byte>, depth: nat)
    requires Roomy(cfg) && EventOk(e)
    requires e.Begin? ==> depth < MAX_DEPTH
    requires e.End? ==> depth > 0
    ensures HeadTail(cfg, WireTypeOf(e), IdOf(e), Words(e) + rest, depth) ==
            Head(WireTypeOf(e), IdOf(e), SubOf(e), AnnouncedBy(e), |Words(e)|)
  {
    hide Varint, ReadVarint;
    match e
    case Fixlen(_, st, payload) => ReadInvertsVarint(|payload| * 8 + st, rest);
    case Ints(_, _, vs) => ReadInvertsVarint(|vs|, rest);
    case Floats(_, st, payload) =>
      var a, b := Varint(FloatCount(st, payload)), Varint(Width(st) * 8 + st);
      assert Words(e) + rest == a + (b + rest);
      ReadInvertsVarint(FloatCount(st, payload), b + rest);
      ReadInvertsVarint(Width(st) * 8 + st, rest);
      assert (a + (b + rest))[|a|..] == b + rest;
    case _ =>
  }

  lemma HeadInverts(cfg: Config, e: Event, rest: seq<byte>, depth: nat)
    requires Roomy(cfg) && EventOk(e)
    requires e.Begin? ==> depth < MAX_DEPTH
    requires e.End? ==> depth > 0
    ensures
      var head := Header(IdOf(e), WireTypeOf(e)) + Words(e);
      ParseHead(cfg, head + rest, depth) == Head(WireTypeOf(e), IdOf(e), SubOf(e), AnnouncedBy(e), |head|)
  {
    hide Varint, ReadVarint, HeadTail, EventOk, Words;
    var word := IdOf(e) * 8 + WireTypeOf(e);
    var head := Header(IdOf(e), WireTypeOf(e));
    assert IdOf(e) <= ID_MAX && WireTypeOf(e) < 8 by { IdInRange(e); }
    assert head + Words(e) + rest == head + (Words(e) + rest);
    ReadInvertsVarint(word, Words(e) + rest);
    assert (head + (Words(e) + rest))[|head|..] == Words(e) + rest;
    WordsInvert(cfg, e, rest, depth);
  }

  lemma IdInRange(e: Event)
    requires EventOk(e)
    ensures IdOf(e) <= ID_MAX
  {
  }

  /** Where a field's value goes: to storage of the handler's or to the hook alone. */
  function Into(cfg: Config, m: M, e: Event): bool
    requires m.visitor.Some?
  {
    var who := m.visitor.value;
    match e
    case Fixlen(id, st, payload) => st >= STRING && cfg.handler.place(who, m.log, id, FIXLEN, st, |payload|).Some?
    case Ints(id, signed, vs) => cfg.handler.layout(who, m.log, id, signed, |vs|).into.Some?
    case Floats(id, st, payload) => FloatPlace(cfg, m, id, st, FloatCount(st, payload)).Some?
    case _ => false
  }

  lemma FloatBytes(st: nat, payload: seq<byte>)
    requires st <= FP64 && Whole(st, payload)
    ensures F.Packed(Width(st), FloatCount(st, payload)) == |payload|
  {
  }

  /** The body of a field, handed to the visitor as the event that was encoded. */
  lemma BodyInverts(cfg: Config, m: M, e: Event, rest: seq<byte>)
    requires Listens(cfg) && IsField(e) && m.visitor.Some? && m.pending == AnnouncedBy(e)
    ensures Visit(cfg, m, e.id, Body(e) + rest) == Next(Deliver(m, Into(cfg, m, e), e), |Body(e)|)
  {
    hide Varint, ReadVarint, Elements, ReadElems, Deliver, TakesAll, IntsFit, BytesFit, FloatsFit;
    var s := Body(e) + rest;
    match e
    case Int(_, signed, v) =>
      RawCooked(signed, v, 0);
      ReadInvertsVarint(Raw(signed, v), rest);
    case Fixlen(id, st, payload) =>
      PlacesAmply(cfg.handler, m.visitor.value, m.log, id, FIXLEN, st, |payload|);
      assert s[..|payload|] == payload;
    case Ints(id, signed, vs) =>
      var layout := cfg.handler.layout(m.visitor.value, m.log, id, signed, |vs|);
      AsksWidest(cfg.handler, m.visitor.value, m.log, id, signed, |vs|);
      ElementsInvert(signed, vs, rest, layout.lo, layout.hi);
    case Floats(id, st, payload) =>
      FloatBytes(st, payload);
      PlacesAmply(cfg.handler, m.visitor.value, m.log, id, ARRAY_FIXLEN, st, FloatCount(st, payload));
      assert s[..|payload|] == payload;
  }

  // ----- one event, end to end ----------------------------------------------------

  /** The questions about a field are behind, its value is about to be taken. */
  function Sought(m: M, e: Event): M {
    Consulted(m.(pending := AnnouncedBy(e)), IdOf(e), WireTypeOf(e), SubOf(e)).(phase := Take(IdOf(e), None))
  }

  /** Where a listener's machine is behind one event. */
  function Told(cfg: Config, m: M, e: Event): M
    requires m.visitor.Some? && (e.End? ==> m.scopes != [])
  {
    match e
    case Begin(_) => Push(Tell(m, false, e), ByHandler, None, m.visitor)
    case End => CloseScope(m)
    case _ => Deliver(Sought(m, e), Into(cfg, Sought(m, e), e), e)
  }

  /** Behind the header: a marker is all there is to it, a field is about to be taken. */
  function Headed(cfg: Config, m: M, e: Event): M
    requires m.visitor.Some? && (e.End? ==> m.scopes != [])
  {
    if e.Begin? || e.End? then Told(cfg, m, e) else Sought(m, e)
  }

  lemma NoTable(cfg: Config, m: M)
    requires Hears(cfg, m)
    ensures m.table.None? && Machine.Depth(m) == |m.scopes|
    ensures m.scopes != [] ==> !m.scopes[|m.scopes| - 1].opener.ByTable? && m.scopes[|m.scopes| - 1].visitor.Some?
  {
  }

  lemma Uncapped(cfg: Config, e: Event)
    requires Listens(cfg) && EventOk(e)
    ensures PendingOk(AnnouncedBy(e)) && Bare(AnnouncedBy(e)) == AnnouncedBy(e)
    ensures IsField(e) ==> Announced(AnnouncedBy(e))
  {
  }

  /** A listener bounds nothing. */
  lemma Unbounded(cfg: Config, m: M, id: nat)
    requires Listens(cfg) && m.visitor.Some?
    ensures HandlerBound(cfg, m, id) < 0
  {
  }

  lemma HeadDispatches(cfg: Config, m: M, e: Event)
    requires Hears(cfg, m) && EventOk(e) && 0 <= Shift(e, |m.scopes|) <= MAX_DEPTH
    requires Ok(cfg, m.(pending := AnnouncedBy(e)))
    ensures e.Begin? || e.End? ==> AnnouncedBy(e) == Nothing && m.(pending := Nothing) == m
    ensures IdOf(e) <= ID_MAX && (IsField(e) ==> Announced(Bare(AnnouncedBy(e))))
    ensures Dispatch(cfg, m.(pending := AnnouncedBy(e)), WireTypeOf(e), IdOf(e), SubOf(e)) == Go(Headed(cfg, m, e))
  {
    hide Ok, Settle, HandlerBound, Tell, CloseScope;
    NoTable(cfg, m);
    Uncapped(cfg, e);
    IdInRange(e);
    var q := m.(pending := AnnouncedBy(e));
    Unbounded(cfg, q, IdOf(e));
    if IsField(e) {
      AsksNothing(cfg, q, e);
    } else {
      assert q == m;
      if e.Begin? {
        WalksIn(cfg.handler, m.visitor.value, m.log, e.id);
      }
    }
  }

  lemma WalksIn(h: Handler, v: int, log: seq<Call>, id: nat)
    requires TakesAll(h)
    ensures h.enter(v, log, id) == Same
  {
  }

  lemma AsksNothing(cfg: Config, m: M, e: Event)
    requires Listens(cfg) && IsField(e) && m.visitor.Some? && m.pending == AnnouncedBy(e)
    requires Announced(Bare(m.pending)) && PendingOk(m.pending)
    ensures Offer(cfg, m, e.id, WireTypeOf(e), SubOf(e)) == Go(Sought(m, e))
  {
    var asked := AskWanted(m, e.id, WireTypeOf(e), SubOf(e));
    Unbounded(cfg, asked, e.id);
    TakesIt(cfg.handler, m.visitor.value, m.log, e.id, WireTypeOf(e), SubOf(e), Size(Bare(m.pending)));
    assert m.(pending := AnnouncedBy(e)) == m;
  }

  lemma TakesIt(h: Handler, v: int, log: seq<Call>, id: nat, wt: nat, sub: int, n: nat)
    requires TakesAll(h)
    ensures h.accept(v, log, id, wt, sub, n)
  {
  }

  /** Asking changes nothing but the record of what was asked. */
  lemma SoughtSilent(m: M, e: Event)
    requires m.visitor.Some?
    ensures
      var n := Sought(m, e);
      n == m.(pending := AnnouncedBy(e), phase := Take(IdOf(e), None), log := n.log) && Heard(n.log) == Heard(m.log)
  {
    var q := m.(pending := AnnouncedBy(e));
    var asked := AskWanted(q, IdOf(e), WireTypeOf(e), SubOf(e));
    HeardGrows(m.log, asked.log[|m.log|]);
    var both := AskBound(asked, IdOf(e));
    if both != asked {
      HeardGrows(asked.log, both.log[|asked.log|]);
    }
  }

  /** The first step over an encoded event. */
  lemma HeadStep(cfg: Config, m: M, e: Event, rest: seq<byte>)
    requires Hears(cfg, m) && EventOk(e) && 0 <= Shift(e, |m.scopes|) <= MAX_DEPTH
    ensures
      var head := Header(IdOf(e), WireTypeOf(e)) + Words(e);
      Step(cfg, m, head + rest) == Next(Headed(cfg, m, e), |head|)
  {
    hide Varint, ReadVarint, ParseHead, Dispatch, Headed;
    NoTable(cfg, m);
    Uncapped(cfg, e);
    HeadInverts(cfg, e, rest, |m.scopes|);
    HeadDispatches(cfg, m, e);
  }

  lemma HeardGrows(log: seq<Call>, c: Call)
    ensures Heard(log + [c]) == Heard(log) + if c.Call? then [c.event] else []
  {
    assert (log + [c])[..|log|] == log;
  }

  lemma ToldHears(cfg: Config, m: M, e: Event)
    requires Hears(cfg, m) && EventOk(e) && 0 <= Shift(e, |m.scopes|) <= MAX_DEPTH
    ensures
      var n := Told(cfg, m, e);
      Hears(cfg, n) && |n.scopes| == Shift(e, |m.scopes|) && Heard(n.log) == Heard(m.log) + [e]
  {
    hide Into, Heard, Sought;
    NoTable(cfg, m);
    HeardGrows(m.log, Call(m.visitor.value, false, e));
    match e
    case Begin(id) =>
      PushOk(cfg, Tell(m, false, e), ByHandler, None, m.visitor);
    case End =>
    case _ =>
      var n := Sought(m, e);
      SoughtSilent(m, e);
      HeardGrows(n.log, Call(m.visitor.value, Into(cfg, n, e), e));
  }

  /** One encoded event is heard as itself, whatever follows it. */
  lemma EventRuns(cfg: Config, m: M, e: Event, rest: seq<byte>)
    requires Hears(cfg, m) && EventOk(e) && 0 <= Shift(e, |m.scopes|) <= MAX_DEPTH
    ensures
      var n := Told(cfg, m, e);
      Hears(cfg, n) && Run(cfg, m, Emit(e) + rest) == Later(Run(cfg, n, rest), |Emit(e)|)
  {
    hide Hears, Step, Ok, Told, Run, Varint, Into, ReadVarint;
    ToldHears(cfg, m, e);
    var head, body := Header(IdOf(e), WireTypeOf(e)) + Words(e), Body(e);
    EmitParts(e);
    Glue(head, body, rest);
    HeadStep(cfg, m, e, body + rest);
    FromHears(cfg, m);
    Unfold(cfg, m, head + (body + rest));
    var h := Headed(cfg, m, e);
    if IsField(e) {
      BodyStep(cfg, m, e, rest);
      Unfold(cfg, h, body + rest);
      Glue(body, rest, []);
      assert (body + rest)[|body|..] == rest;
      Chunks.LaterLater(Run(cfg, Told(cfg, m, e), rest), |body|, |head|);
    } else {
      assert body + rest == rest;
    }
  }

  lemma FromHears(cfg: Config, m: M)
    requires Hears(cfg, m)
    ensures Ok(cfg, m) && m.visitor.Some? && Listens(cfg) && m.phase == Walk && m.pending == Nothing
  {
  }

  lemma BodyStep(cfg: Config, m: M, e: Event, rest: seq<byte>)
    requires Hears(cfg, m) && IsField(e) && Ok(cfg, Headed(cfg, m, e))
    ensures Step(cfg, Headed(cfg, m, e), Body(e) + rest) == Next(Told(cfg, m, e), |Body(e)|)
  {
    SoughtSilent(m, e);
    hide Ok, Visit, Body, Into, Sought;
    BodyInverts(cfg, Sought(m, e), e, rest);
  }

  // ----- whole messages -------------------------------------------------------------

  /** A decode that has been fed nothing. */
  function Fresh(cfg: Config, words: seq<word>, objects: seq<Obj>): Chunks.Decode {
    Chunks.Live(Start(cfg, words, objects), [])
  }

  /** Encoded events are heard as themselves, one after the other. */
  lemma {:induction false} EventsRun(cfg: Config, m: M, es: seq<Event>, rest: seq<byte>) returns (n: M)
    requires Hears(cfg, m) && AllOk(es) && Nests(es, |m.scopes|)
    ensures Hears(cfg, n) && |n.scopes| == Level(es, |m.scopes|) && Heard(n.log) == Heard(m.log) + es
    ensures Run(cfg, m, EmitAll(es) + rest) == Later(Run(cfg, n, rest), |EmitAll(es)|)
    decreases |es|
  {
    hide Hears, Told, Run, Heard, Emit;
    FromHears(cfg, m);
    if es == [] {
      n := m;
      assert [] + rest == rest && Heard(m.log) + [] == Heard(m.log);
    } else {
      var e, tail := es[0], es[1..];
      assert Nests(tail, Shift(e, |m.scopes|)) && 0 <= Shift(e, |m.scopes|) <= MAX_DEPTH;
      ToldHears(cfg, m, e);
      EventRuns(cfg, m, e, EmitAll(tail) + rest);
      n := EventsRun(cfg, Told(cfg, m, e), tail, rest);
      Glue(Emit(e), EmitAll(tail), rest);
      FromHears(cfg, n);
      Chunks.LaterLater(Run(cfg, n, rest), |EmitAll(tail)|, |Emit(e)|);
      assert Heard(m.log) + [e] + tail == Heard(m.log) + es;
    }
  }

  lemma FreshHears(cfg: Config, words: seq<word>, objects: seq<Obj>)
    requires Listens(cfg)
    ensures Hears(cfg, Start(cfg, words, objects)) && Heard([]) == []
    ensures Chunks.DecodeOk(cfg, Fresh(cfg, words, objects))
  {
  }

  /** A whole message of well-nested events decodes COMPLETE to those events. */
  lemma EncodedIsHeard(cfg: Config, words: seq<word>, objects: seq<Obj>, es: seq<Event>)
    requires Listens(cfg) && AllOk(es) && Nests(es, 0) && Level(es, 0) == 0
    ensures Chunks.DecodeOk(cfg, Fresh(cfg, words, objects))
    ensures
      var d := Chunks.Feed(cfg, Fresh(cfg, words, objects), EmitAll(es));
      Chunks.StatusOf(d).Complete? && Heard(Chunks.Log(d)) == es
  {
    hide Heard, EmitAll, Step;
    FreshHears(cfg, words, objects);
    var m := Start(cfg, words, objects);
    var n := EventsRun(cfg, m, es, []);
    var s := EmitAll(es);
    assert s + [] == s && [] + s == s && [] + es == es;
    Unfold(cfg, n, []);
    assert Step(cfg, n, []) == Wait(n, 0) by { StepOnNothing(cfg, n); }
    assert s[|s|..] == [];
  }

  lemma StepOnNothing(cfg: Config, m: M)
    requires Ok(cfg, m) && !m.phase.Take? && m.pending == Nothing
    ensures Step(cfg, m, []) == Wait(m, 0)
  {
  }

  lemma NothingLaid(cfg: Config)
    requires Listens(cfg)
    ensures Chunks.Unlaid(cfg)
  {
  }

  /**
   The round trip.  What one lazy pass over a tree's operations writes, cut
   into feeds in any way, decodes COMPLETE and delivers exactly the events of
   the pruned tree, in order.
   */
  lemma RoundTrip(cfg: Config, words: seq<word>, objects: seq<Obj>, f: Forest, chunks: seq<seq<byte>>)
    requires Listens(cfg) && ForestOk(f) && Height(f) <= MAX_DEPTH
    requires chunks != [] && Chunks.Flatten(chunks) == Framing.Run(Framing.START, Framing.Ops(f)).out
    ensures Chunks.DecodeOk(cfg, Fresh(cfg, words, objects))
    ensures
      var d := Chunks.FeedAll(cfg, Fresh(cfg, words, objects), chunks);
      Chunks.StatusOf(d).Complete? && Heard(Chunks.Log(d)) == Events(Prune(f))
  {
    hide Hears, Heard, EmitAll, Listens, Chunks.Unlaid, Chunks.DecodeOk, Chunks.Flatten;
    NothingLaid(cfg);
    Framing.OnePassIsCanonical(f);
    PruneKeepsOk(f);
    EventsOk(Prune(f));
    ForestNests(Prune(f), 0);
    EncodedIsHeard(cfg, words, objects, Events(Prune(f)));
    Chunks.ChunkingInvisible(cfg, Fresh(cfg, words, objects), chunks);
  }

  // ----- what was heard, encoded again ----------------------------------------------

  lemma {:induction false} ElementsShortest(s: seq<byte>, count: nat, signed: bool, lo: int, hi: int)
    requires ReadElems(s, count, signed, lo, hi).end.Through?
    ensures
      var e := ReadElems(s, count, signed, lo, hi);
      && (forall i | 0 <= i < |e.values| :: ValueOk(signed, e.values[i]))
      && |e.values| == count && |Elements(signed, e.values)| <= e.used <= |s|
    decreases count
  {
    hide Varint, ReadVarint, ZigzagEncode, ZigzagDecode;
    ReadElemsBounds(s, count, signed, lo, hi);
    if count > 0 {
      ReadVarintBounds(s);
      var n := ReadVarint(s).len;
      ElementsShortest(s[n..], count - 1, signed, lo, hi);
      var v, rest := Cooked(signed, ReadVarint(s).value), ReadElems(s[n..], count - 1, signed, lo, hi).values;
      RawCooked(signed, 0, ReadVarint(s).value);
      assert ([v] + rest)[1..] == rest;
    }
  }

  /** The words read behind a header are no shorter than those that would be written. */
  lemma WordsShortest(cfg: Config, wt: nat, id: nat, s: seq<byte>, depth: nat)
    requires Listens(cfg) && wt < 8
    ensures
      var h := HeadTail(cfg, wt, id, s, depth);
      h.Head? ==> Bare(h.pending) == h.pending && |WordsFor(h.pending)| <= h.used
  {
    hide Varint, ReadVarint, TakesAll;
    ReadVarintBounds(s);
    if ReadVarint(s).Got? {
      var v := ReadVarint(s).value;
      assert v / 8 * 8 + v % 8 == v;
      var t := s[ReadVarint(s).len..];
      ReadVarintBounds(t);
      if ReadVarint(t).Got? {
        var w := ReadVarint(t).value;
        assert w / 8 * 8 + w % 8 == w;
      }
    }
  }

  lemma HeadShortest(cfg: Config, s: seq<byte>, depth: nat)
    requires Listens(cfg)
    ensures
      var h := ParseHead(cfg, s, depth);
      && HeadOk(h, s, depth)
      && (h.Head? ==> h.id <= ID_MAX && Bare(h.pending) == h.pending &&
                      0 < |Header(h.id, h.wt)| + |WordsFor(h.pending)| <= h.used)
  {
    hide Varint, ReadVarint, HeadTail, Listens;
    ReadVarintBounds(s);
    ParseHeadBounds(cfg, s, depth);
    if ReadVarint(s).Got? {
      var v, n := ReadVarint(s).value, ReadVarint(s).len;
      assert v / 8 * 8 + v % 8 == v;
      HeadTailBounds(cfg, v % 8, v / 8, s[n..], depth);
      WordsShortest(cfg, v % 8, v / 8, s[n..], depth);
    }
  }

  lemma PackedWhole(st: nat, count: nat, payload: seq<byte>)
    requires st <= FP64 && |payload| == F.Packed(Width(st), count)
    ensures Whole(st, payload) && FloatCount(st, payload) == count
  {
  }

  /** A value the visitor was handed is an event that would be written no longer. */
  lemma BodyShortest(cfg: Config, m: M, id: nat, s: seq<byte>) returns (e: Event)
    requires Listens(cfg) && m.visitor.Some? && Announced(m.pending) && id <= ID_MAX
    requires Visit(cfg, m, id, s).Next?
    ensures IsField(e) && e.id == id && AnnouncedBy(e) == m.pending
    ensures
      var o := Visit(cfg, m, id, s);
      o.m == Deliver(m, Into(cfg, m, e), e) && |Body(e)| <= o.used
  {
    hide Varint, ReadVarint, Elements, ReadElems, Deliver, TakesAll, Whole, FloatCount, F.Packed;
    match m.pending
    case Scalar(signed) =>
      ReadVarintBounds(s);
      var raw := ReadVarint(s).value;
      RawCooked(signed, 0, raw);
      e := Int(id, signed, Cooked(signed, raw));
    case Payload(st, len) =>
      e := Fixlen(id, st, s[..len]);
    case VArray(signed, count) =>
      var layout := cfg.handler.layout(m.visitor.value, m.log, id, signed, count);
      ElementsShortest(s, count, signed, layout.lo, layout.hi);
      e := Ints(id, signed, ReadElems(s, count, signed, layout.lo, layout.hi).values);
    case FArray(st, count) =>
      e := Floats(id, st, s[..F.Packed(Width(st), count)]);
      PackedWhole(st, count, e.payload);
  }

  /** A run that ends between two fields with every byte consumed. */
  predicate AtBoundary(o: Out, s: seq<byte>) {
    o.Wait? && o.used == |s| && o.m.phase == Walk && o.m.pending == Nothing
  }

  /** The event a header leads to; of a field, all but its value. */
  function Shape(h: Head): Event
    requires h.Head?
  {
    if h.wt == SEQUENCE_START then Begin(h.id) else End
  }

  /** The same questions, named from the header. */
  function Headwise(m: M, h: Head): M
    requires h.Head?
  {
    Consulted(m.(pending := h.pending), h.id, h.wt, h.sub).(phase := Take(h.id, None))
  }

  /** What a listener's machine does behind a header. */
  lemma HeadHeard(cfg: Config, m: M, s: seq<byte>)
    requires Hears(cfg, m) && s != [] && Step(cfg, m, s).Next?
    ensures
      var h := ParseHead(cfg, s, |m.scopes|);
      && HeadOk(h, s, |m.scopes|) && h.Head? && h.id <= ID_MAX && Bare(h.pending) == h.pending
      && 0 < |Header(h.id, h.wt)| + |WordsFor(h.pending)| <= h.used
      && (h.wt >= SEQUENCE_START ==> Step(cfg, m, s) == Next(Told(cfg, m, Shape(h)), h.used))
      && (h.wt < SEQUENCE_START ==>
            Step(cfg, m, s) == Next(Headwise(m, h), h.used))
  {
    hide ParseHead, Ok, Varint, HandlerBound, Tell, CloseScope;
    NoTable(cfg, m);
    HeadShortest(cfg, s, |m.scopes|);
    ParseHeadBounds(cfg, s, |m.scopes|);
    var h := ParseHead(cfg, s, |m.scopes|);
    if h.Head? {
      if h.wt == SEQUENCE_START {
        WalksIn(cfg.handler, m.visitor.value, m.log, h.id);
        assert m.(pending := Nothing) == m;
      } else if h.wt == SEQUENCE_END {
        assert m.(pending := Nothing) == m;
      } else {
        var q := m.(pending := h.pending);
        Unbounded(cfg, AskWanted(q, h.id, h.wt, h.sub), h.id);
        TakesIt(cfg.handler, m.visitor.value, m.log, h.id, h.wt, h.sub, Size(Bare(h.pending)));
      }
    }
  }

  /** The next event of a message a listener hears to its end. */
  lemma NextEvent(cfg: Config, m: M, s: seq<byte>) returns (e: Event, used: nat)
    requires Hears(cfg, m) && s != [] && AtBoundary(Run(cfg, m, s), s)
    ensures EventOk(e) && 0 <= Shift(e, |m.scopes|) <= MAX_DEPTH
    ensures 0 < used <= |s| && |Emit(e)| <= used
    ensures
      var n := Told(cfg, m, e);
      Hears(cfg, n) && Run(cfg, m, s) == Later(Run(cfg, n, s[used..]), used)
  {
    hide Hears, Step, Ok, Told, Run, Varint, Into, ParseHead, Listens, AtBoundary;
    FromHears(cfg, m);
    Unfold(cfg, m, s);
    NextNotWait(cfg, m, s);
    NestedNow(cfg, m);
    HeadHeard(cfg, m, s);
    var h := ParseHead(cfg, s, |m.scopes|);
    if h.wt >= SEQUENCE_START {
      e, used := Shape(h), h.used;
      if e.End? {
        EndIsByte();
      }
    } else {
      e, used := NextValue(cfg, m, h, s);
    }
    ToldHears(cfg, m, e);
  }

  lemma EndIsByte()
    ensures |Emit(End)| == 1
  {
  }

  /** The same of a field, its header read. */
  lemma NextValue(cfg: Config, m: M, h: Head, s: seq<byte>) returns (e: Event, used: nat)
    requires Hears(cfg, m) && Ok(cfg, m) && AtBoundary(Run(cfg, m, s), s)
    requires h.Head? && h.id <= ID_MAX && h.wt < SEQUENCE_START && Bare(h.pending) == h.pending
    requires HeadOk(h, s, |m.scopes|) && 0 < |Header(h.id, h.wt)| + |WordsFor(h.pending)| <= h.used
    requires Step(cfg, m, s) == Next(Headwise(m, h), h.used)
    ensures IsField(e) && EventOk(e) && 0 < used <= |s| && |Emit(e)| <= used
    ensures
      var n := Told(cfg, m, e);
      Ok(cfg, n) && Run(cfg, m, s) == Later(Run(cfg, n, s[used..]), used)
  {
    hide Hears, Step, Ok, Told, Run, Varint, Into, Header, WordsFor, Body;
    FromHears(cfg, m);
    Unfold(cfg, m, s);
    var o, t := Step(cfg, m, s).m, s[h.used..];
    Unfold(cfg, o, t);
    TakeNotWait(cfg, o, t);
    e := BodyShortest(cfg, o, h.id, t);
    used := h.used + Step(cfg, o, t).used;
    FieldTag(e, h);
    EmitParts(e);
    assert t[used - h.used..] == s[used..];
    assert o == Sought(m, e);
    ToldField(cfg, m, e);
    Chunks.LaterLater(Run(cfg, Step(cfg, o, t).m, s[used..]), used - h.used, h.used);
  }

  /** A field's header is the one of the value it announces. */
  lemma FieldTag(e: Event, h: Head)
    requires IsField(e) && h.Head? && h.wt < SEQUENCE_START && e.id == h.id && AnnouncedBy(e) == h.pending
    requires TagOf(Bare(h.pending)) == (h.wt, h.sub) && Bare(h.pending) == h.pending
    ensures WireTypeOf(e) == h.wt && SubOf(e) == h.sub && IdOf(e) == h.id && Words(e) == WordsFor(h.pending)
  {
  }

  lemma ToldField(cfg: Config, m: M, e: Event)
    requires m.visitor.Some? && IsField(e)
    ensures Told(cfg, m, e) == Deliver(Sought(m, e), Into(cfg, Sought(m, e), e), e)
  {
  }

  lemma NextNotWait(cfg: Config, m: M, s: seq<byte>)
    requires Ok(cfg, m) && m.phase == Walk && m.pending == Nothing && s != [] && AtBoundary(Run(cfg, m, s), s)
    ensures Step(cfg, m, s).Next?
  {
    hide Ok, Run, ParseHead, Dispatch;
    Unfold(cfg, m, s);
  }

  /** A value that is waited for is no place to end a message. */
  lemma TakeNotWait(cfg: Config, m: M, s: seq<byte>)
    requires Ok(cfg, m) && m.phase.Take? && m.phase.row.None?
    requires Run(cfg, m, s).Wait? && Run(cfg, m, s).m.phase == Walk
    ensures Announced(Bare(m.pending)) && m.visitor.Some?
    ensures Visit(cfg, m, m.phase.id, s).Next? && Step(cfg, m, s) == Visit(cfg, m, m.phase.id, s)
  {
    hide Run, Visit;
    Unfold(cfg, m, s);
  }

  /** The events of a message a listener heard to its end. */
  lemma {:induction false} EventsHeard(cfg: Config, m: M, s: seq<byte>) returns (es: seq<Event>)
    requires Hears(cfg, m) && AtBoundary(Run(cfg, m, s), s)
    ensures AllOk(es) && Nests(es, |m.scopes|) && Level(es, |m.scopes|) == |Run(cfg, m, s).m.scopes|
    ensures Heard(Run(cfg, m, s).m.log) == Heard(m.log) + es
    ensures |EmitAll(es)| <= |s|
    decreases |s|
  {
    hide Hears, Told, Run, Heard, Emit, Step;
    FromHears(cfg, m);
    if s == [] {
      es := [];
      Unfold(cfg, m, s);
      StepOnNothing(cfg, m);
      NestedNow(cfg, m);
      assert Heard(m.log) + [] == Heard(m.log);
    } else {
      var e, used := NextEvent(cfg, m, s);
      var n := Told(cfg, m, e);
      ToldHears(cfg, m, e);
      FromHears(cfg, n);
      var tail := EventsHeard(cfg, n, s[used..]);
      es := [e] + tail;
      assert es[1..] == tail;
      NestedNow(cfg, m);
      assert Heard(m.log) + [e] + tail == Heard(m.log) + es;
    }
  }

  lemma NestedNow(cfg: Config, m: M)
    requires Hears(cfg, m)
    ensures |m.scopes| <= MAX_DEPTH && Nests([], |m.scopes|)
  {
  }

  // ----- transcoding ----------------------------------------------------------------

  /** The operations that re-emit events with every frame kept. */
  function Again(es: seq<Event>): (ops: seq<Framing.Op>)
    ensures |ops| == |es|
  {
    seq(|es|, i requires 0 <= i < |es| =>
      if es[i].Begin? then Framing.Open(es[i].id) else if es[i].End? then Framing.CloseKeep else Framing.Write(es[i]))
  }

  /** Kept frames: what is written and what is held back together are the plain encoding. */
  lemma {:induction false} KeptFrames(s: Framing.Frames, es: seq<Event>)
    requires Framing.FramesOk(s) && AllOk(es) && Nests(es, s.depth)
    ensures
      var t := Framing.Run(s, Again(es));
      && t.depth == Level(es, s.depth)
      && t.out + Framing.Headers(t.pending) == s.out + Framing.Headers(s.pending) + EmitAll(es)
    decreases |es|
  {
    hide Emit, Header, Framing.Step, Framing.Headers, Again, EventOk;
    var had := s.out + Framing.Headers(s.pending);
    if es == [] {
      assert had + [] == had;
    } else {
      var e, tail := es[0], es[1..];
      AgainParts(es);
      KeptFrame(s, e);
      KeptFrames(Framing.Step(s, Again([e])[0]), tail);
      assert had + Emit(e) + EmitAll(tail) == had + (Emit(e) + EmitAll(tail));
    }
  }

  lemma AgainParts(es: seq<Event>)
    requires es != []
    ensures Again(es)[1..] == Again(es[1..]) && Again(es)[0] == Again([es[0]])[0]
  {
  }

  lemma KeptFrame(s: Framing.Frames, e: Event)
    requires Framing.FramesOk(s) && EventOk(e) && 0 <= Shift(e, s.depth) <= MAX_DEPTH
    ensures
      var t := Framing.Step(s, Again([e])[0]);
      && t.depth == Shift(e, s.depth)
      && t.out + Framing.Headers(t.pending) == s.out + Framing.Headers(s.pending) + Emit(e)
  {
    hide Varint, Message.Elements;
    assert Framing.Headers([]) == [];
    if e.Begin? {
      assert (s.pending + [e.id])[..|s.pending|] == s.pending;
      assert Framing.Headers(s.pending + [e.id]) == Framing.Headers(s.pending) + Header(e.id, SEQUENCE_START);
      assert s.out + (Framing.Headers(s.pending) + Header(e.id, SEQUENCE_START)) ==
             s.out + Framing.Headers(s.pending) + Header(e.id, SEQUENCE_START);
    } else {
      var t := Framing.Step(s, Again([e])[0]);
      assert t.out + [] == t.out;
    }
  }

  /** Decode with a listener, and encode what it heard. */
  function Transcode(cfg: Config, words: seq<word>, objects: seq<Obj>, s: seq<byte>): seq<byte>
    requires Chunks.DecodeOk(cfg, Fresh(cfg, words, objects))
  {
    Framing.Run(Framing.START, Again(Heard(Chunks.Log(Chunks.Feed(cfg, Fresh(cfg, words, objects), s))))).out
  }

  /**
   Transcoding normalises.  What a listener heard of any COMPLETE message,
   however padded, is written in no more bytes than were sent, decodes COMPLETE
   to the same events, and is unchanged by transcoding it again.
   */
  lemma TranscodingNormalises(cfg: Config, words: seq<word>, objects: seq<Obj>, s: seq<byte>)
    requires Listens(cfg)
    ensures Chunks.DecodeOk(cfg, Fresh(cfg, words, objects))
    ensures
      var blank := Fresh(cfg, words, objects);
      var d := Chunks.Feed(cfg, blank, s);
      Chunks.StatusOf(d).Complete? ==>
        var t := Transcode(cfg, words, objects, s);
        var e := Chunks.Feed(cfg, blank, t);
        && Chunks.StatusOf(e).Complete?
        && Heard(Chunks.Log(e)) == Heard(Chunks.Log(d))
        && |t| <= |s|
        && Transcode(cfg, words, objects, t) == t
  {
    hide Heard, EmitAll, Step, Again;
    FreshHears(cfg, words, objects);
    var blank, m := Fresh(cfg, words, objects), Start(cfg, words, objects);
    if Chunks.StatusOf(Chunks.Feed(cfg, blank, s)).Complete? {
      assert [] + s == s;
      var es := EventsHeard(cfg, m, s);
      assert [] + es == es;
      KeptFrames(Framing.START, es);
      assert [] + EmitAll(es) == EmitAll(es);
      var t := Transcode(cfg, words, objects, s);
      assert t == EmitAll(es) by { NothingHeld(Framing.Run(Framing.START, Again(es)), EmitAll(es)); }
      EncodedIsHeard(cfg, words, objects, es);
    }
  }

  lemma NothingHeld(t: Framing.Frames, all: seq<byte>)
    requires Framing.FramesOk(t) && t.depth == 0 && t.out + Framing.Headers(t.pending) == all
    ensures t.out == all
  {
    assert t.pending == [] && t.out + [] == t.out;
  }
}

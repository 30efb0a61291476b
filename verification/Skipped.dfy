/**
 The sequence nobody wants.  A skip passes over a whole sequence, however deep,
 and ends where a walk through it would have ended; nothing but the position
 tells that it was there.
 */
module Skipped {
  import opened Wire
  import opened Message
  import opened Schema
  import opened Machine
  import Chunks
  import Locality
  import Skips
  import Caps
  import F = Floats
  import R = RoundTrip
  import Overlays

  // ----- over encoded contents ------------------------------------------------------

  /** An event's header, whatever the caps. */
  lemma HeadMet(cfg: Config, e: Event, rest: seq<byte>, depth: nat)
    requires EventOk(e) && (e.Begin? ==> depth < MAX_DEPTH) && (e.End? ==> depth > 0)
    ensures
      var head := Header(R.IdOf(e), R.WireTypeOf(e)) + R.Words(e);
      var h := ParseHead(cfg, head + rest, depth);
      && h.Head? && h.wt == R.WireTypeOf(e) && h.used == |head| && head != []
      && PendingOk(h.pending) && Bare(h.pending) == R.AnnouncedBy(e) && (h.pending == Nothing <==> !IsField(e))
  {
    hide ParseHead, Header, R.Words;
    var head := Header(R.IdOf(e), R.WireTypeOf(e)) + R.Words(e);
    assert R.Roomy(Caps.Loose(cfg));
    R.HeadInverts(Caps.Loose(cfg), e, rest, depth);
    Caps.LooseHead(cfg, head + rest, depth);
    ParseHeadBounds(cfg, head + rest, depth);
  }

  /** Its body, dropped. */
  lemma BodySkips(m: M, e: Event, rest: seq<byte>)
    requires IsField(e) && PendingOk(m.pending) && Bare(m.pending) == R.AnnouncedBy(e)
    ensures SkipPending(m, R.Body(e) + rest) == Next(m.(pending := Nothing), |R.Body(e)|)
  {
    hide Varint, ReadVarint, Message.Elements, DropVarints;
    var s := R.Body(e) + rest;
    match e
    case Int(_, signed, v) =>
      RawCooked(signed, v, 0);
      ReadInvertsVarint(Raw(signed, v), rest);
    case Fixlen(_, _, payload) =>
      Chunks.DropNone(s[|payload|..], 0);
    case Ints(_, signed, vs) =>
      R.ElementsInvert(signed, vs, rest, -TWO63, TWO64 - 1);
      Skips.DropAgreesWithRead(s, |vs|, signed, -TWO63, TWO64 - 1);
      DropsAll(s, |vs|, 0);
      assert s[0..] == s;
    case Floats(_, st, payload) =>
      R.FloatBytes(st, payload);
      Chunks.DropNone(s[|payload|..], 0);
  }

  lemma {:induction false} DropsAll(s: seq<byte>, left: nat, k: nat)
    requires k < VARINT_MAX
    ensures DropVarints(s, left, k).3.Through? ==> DropVarints(s, left, k).0 == 0
  {
    if left > 0 && s != [] {
      Chunks.DropByte(s, left, k);
      if k == VARINT_MAX - 1 || s[0] < 128 {
        DropsAll(s[1..], left - 1, 0);
      } else {
        DropsAll(s[1..], left, k + 1);
      }
    }
  }

  /** In the middle of a skip, between two headers. */
  predicate Skipping(cfg: Config, m: M, nest: nat) {
    Ok(cfg, m) && m.phase == Skip(nest) && m.pending == Nothing
  }

  /** A field of a skipped sequence. */
  lemma FieldSkips(cfg: Config, m: M, nest: nat, e: Event, rest: seq<byte>)
    requires Skipping(cfg, m, nest) && IsField(e)
    ensures Run(cfg, m, Emit(e) + rest) == Later(Run(cfg, m, rest), |Emit(e)|)
  {
    var head, body := Header(R.IdOf(e), R.WireTypeOf(e)) + R.Words(e), R.Body(e);
    R.EmitParts(e);
    R.Glue(head, body, rest);
    HeadMet(cfg, e, body + rest, Machine.Depth(m));
    StepSound(cfg, m, head + (body + rest));
    var q := m.(pending := ParseHead(cfg, head + (body + rest), Machine.Depth(m)).pending);
    assert Step(cfg, m, head + (body + rest)) == Next(q, |head|) by {
      WireTypeBelow(e);
      hide ParseHead, Ok;
    }
    BodySkips(q, e, rest);
    assert Step(cfg, q, body + rest) == Next(m, |body|) by {
      hide SkipPending, Ok;
      assert q.(pending := Nothing) == m;
    }
    hide Step, Ok, Run, Emit, ParseHead, R.Body, R.Words, Header;
    Unfold(cfg, m, head + (body + rest));
    Unfold(cfg, q, body + rest);
    assert (head + (body + rest))[|head|..] == body + rest && (body + rest)[|body|..] == rest;
    Chunks.LaterLater(Run(cfg, m, rest), |body|, |head|);
  }

  lemma WireTypeBelow(e: Event)
    requires IsField(e)
    ensures R.WireTypeOf(e) < SEQUENCE_START
  {
  }

  /** A marker: one sequence more or one less to be closed. */
  lemma MarkerSkips(cfg: Config, m: M, nest: nat, e: Event, rest: seq<byte>)
    requires Skipping(cfg, m, nest) && EventOk(e) && (e.Begin? || e.End?)
    requires e.Begin? ==> Machine.Depth(m) < MAX_DEPTH
    ensures
      var n := m.(phase := if e.Begin? then Skip(nest + 1) else if nest == 1 then Walk else Skip(nest - 1));
      Ok(cfg, n) && Run(cfg, m, Emit(e) + rest) == Later(Run(cfg, n, rest), |Emit(e)|)
  {
    var head := Header(R.IdOf(e), R.WireTypeOf(e)) + R.Words(e);
    R.EmitParts(e);
    assert Emit(e) == head by { assert head + [] == head; }
    HeadMet(cfg, e, rest, Machine.Depth(m));
    var n := m.(phase := if e.Begin? then Skip(nest + 1) else if nest == 1 then Walk else Skip(nest - 1));
    MarkerStep(cfg, m, nest, e, head, rest);
    hide ParseHead, Ok, Step, Emit, Header, R.Words;
    Unfold(cfg, m, head + rest);
    assert (head + rest)[|head|..] == rest;
  }

  lemma MarkerStep(cfg: Config, m: M, nest: nat, e: Event, head: seq<byte>, rest: seq<byte>)
    requires Skipping(cfg, m, nest) && (e.Begin? || e.End?) && head != []
    requires
      var h := ParseHead(cfg, head + rest, Machine.Depth(m));
      h.Head? && h.wt == R.WireTypeOf(e) && h.used == |head|
    ensures Step(cfg, m, head + rest) ==
            Next(m.(phase := if e.Begin? then Skip(nest + 1) else if nest == 1 then Walk else Skip(nest - 1)), |head|)
  {
    hide ParseHead, ScopesOk, TablesOk;
  }

  /** The contents of a skipped sequence, with every sequence in them. */
  lemma {:induction false} ForestSkips(cfg: Config, m: M, nest: nat, f: Forest, rest: seq<byte>)
    requires Skipping(cfg, m, nest) && ForestOk(f) && Machine.Depth(m) + Height(f) <= MAX_DEPTH
    ensures AllOk(Events(f))
    ensures Run(cfg, m, EmitAll(Events(f)) + rest) == Later(Run(cfg, m, rest), |EmitAll(Events(f))|)
    decreases f, 1
  {
    EventsOk(f);
    hide Run, Emit;
    match f
    case Nil =>
      assert EmitAll([]) + rest == rest;
      Chunks.LaterLater(Run(cfg, m, rest), 0, 0);
    case Field(e, more) =>
      EventsOk(more);
      var tail := EmitAll(Events(more));
      EmitAllAppends([e], Events(more));
      EmitOne(e);
      assert Emit(e) + tail + rest == Emit(e) + (tail + rest);
      FieldSkips(cfg, m, nest, e, tail + rest);
      ForestSkips(cfg, m, nest, more, rest);
      Chunks.LaterLater(Run(cfg, m, rest), |tail|, |Emit(e)|);
    case Nested(_, _, _, _) => NestedSkips(cfg, m, nest, f, rest);
  }

  lemma {:induction false} NestedSkips(cfg: Config, m: M, nest: nat, f: Forest, rest: seq<byte>)
    requires f.Nested? && Skipping(cfg, m, nest) && ForestOk(f) && Machine.Depth(m) + Height(f) <= MAX_DEPTH
    ensures AllOk(Events(f))
    ensures Run(cfg, m, EmitAll(Events(f)) + rest) == Later(Run(cfg, m, rest), |EmitAll(Events(f))|)
    decreases f, 0
  {
    var id, kids, more := f.id, f.kids, f.rest;
    hide Run, Emit, Ok, EmitAll, Skipping, EventOk, AllOk;
    EventsOk(kids);
    EventsOk(more);
    NestedParts(id, kids, more);
    var a, inner, z, tail := Emit(Begin(id)), EmitAll(Events(kids)), Emit(End), EmitAll(Events(more));
    var n := m.(phase := Skip(nest + 1));
    NestedOpens(cfg, m, nest, id, inner + (z + (tail + rest)));
    ForestSkips(cfg, n, nest + 1, kids, z + (tail + rest));
    NestedCloses(cfg, m, nest, tail + rest);
    ForestSkips(cfg, m, nest, more, rest);
    Regroup(a, inner, z, tail, rest);
    FourLater(Run(cfg, m, rest), |a|, |inner|, |z|, |tail|);
  }

  lemma FourLater(o: Out, a: nat, b: nat, c: nat, d: nat)
    ensures Later(Later(Later(Later(o, d), c), b), a) == Later(o, a + b + c + d)
  {
    Chunks.LaterLater(o, d, c);
    Chunks.LaterLater(o, d + c, b);
    Chunks.LaterLater(o, d + c + b, a);
  }

  lemma Regroup(a: seq<byte>, b: seq<byte>, c: seq<byte>, d: seq<byte>, rest: seq<byte>)
    ensures a + (b + (c + d)) + rest == a + (b + (c + (d + rest)))
  {
  }

  lemma NestedOpens(cfg: Config, m: M, nest: nat, id: nat, rest: seq<byte>)
    requires Skipping(cfg, m, nest) && id <= ID_MAX && Machine.Depth(m) < MAX_DEPTH
    ensures
      var n := m.(phase := Skip(nest + 1));
      && Skipping(cfg, n, nest + 1) && Machine.Depth(n) == Machine.Depth(m) + 1
      && Run(cfg, m, Emit(Begin(id)) + rest) == Later(Run(cfg, n, rest), |Emit(Begin(id))|)
  {
    hide ScopesOk, TablesOk, Emit, Run;
    MarkerSkips(cfg, m, nest, Begin(id), rest);
  }

  lemma NestedCloses(cfg: Config, m: M, nest: nat, rest: seq<byte>)
    requires Skipping(cfg, m, nest) && Machine.Depth(m) < MAX_DEPTH
    ensures
      var n := m.(phase := Skip(nest + 1));
      Ok(cfg, n) && Run(cfg, n, Emit(End) + rest) == Later(Run(cfg, m, rest), |Emit(End)|)
  {
    hide ScopesOk, TablesOk, Emit, Run;
    var n := m.(phase := Skip(nest + 1));
    MarkerSkips(cfg, n, nest + 1, End, rest);
    assert n.(phase := Skip(nest)) == m;
  }

  lemma NestedParts(id: nat, kids: Forest, more: Forest)
    requires id <= ID_MAX && ForestOk(kids) && ForestOk(more)
    ensures AllOk(Events(kids)) && AllOk(Events(more)) && EventOk(Begin(id)) && EventOk(End)
    ensures AllOk([Begin(id)] + Events(kids) + [End] + Events(more))
    ensures EmitAll([Begin(id)] + Events(kids) + [End] + Events(more)) ==
            Emit(Begin(id)) + (EmitAll(Events(kids)) + (Emit(End) + EmitAll(Events(more))))
  {
    EventsOk(kids);
    EventsOk(more);
    assert EventOk(Begin(id)) && EventOk(End);
    EmitOne(Begin(id));
    EmitOne(End);
    FourParts([Begin(id)], Events(kids), [End], Events(more));
  }

  lemma FourParts(a: seq<Event>, b: seq<Event>, c: seq<Event>, d: seq<Event>)
    requires AllOk(a) && AllOk(b) && AllOk(c) && AllOk(d)
    ensures AllOk(a + b + c + d)
    ensures EmitAll(a + b + c + d) == EmitAll(a) + (EmitAll(b) + (EmitAll(c) + EmitAll(d)))
  {
    hide AllOk, EmitAll;
    EmitAllAppends(a, b);
    EmitAllAppends(a + b, c);
    EmitAllAppends(a + b + c, d);
  }

  /**
   A skip passes over the whole sequence: behind its start marker, contents of
   any depth and its own end marker, the walk goes on with slots, scopes and
   calls as they were.
   */
  lemma SequenceSkips(cfg: Config, m: M, kids: Forest, rest: seq<byte>)
    requires Skipping(cfg, m, 1) && ForestOk(kids) && Machine.Depth(m) + Height(kids) <= MAX_DEPTH
    ensures AllOk(Events(kids)) && Ok(cfg, m.(phase := Walk))
    ensures
      var inner := EmitAll(Events(kids)) + [SEQUENCE_END];
      Run(cfg, m, inner + rest) == Later(Run(cfg, m.(phase := Walk), rest), |inner|)
  {
    hide Run, EmitAll, Events, Step, ScopesOk, TablesOk, AllOk;
    EventsOk(kids);
    var inside := EmitAll(Events(kids));
    Behind(inside, [SEQUENCE_END], rest);
    ForestSkips(cfg, m, 1, kids, [SEQUENCE_END] + rest);
    MarkerSkips(cfg, m, 1, End, rest);
    Chunks.LaterLater(Run(cfg, m.(phase := Walk), rest), 1, |inside|);
  }

  /** A sequence that no row descends into and no handler may enter, or wants to. */
  predicate Declined(cfg: Config, m: M, id: nat)
    requires Ok(cfg, m)
  {
    var rows := if m.table.Some? then cfg.tables[m.table.value].rows else map[];
    && (id in rows ==> !rows[id].kind.KSequence?)
    && (m.visitor.None? || (m.table.Some? && cfg.tables[m.table.value].closed) ||
        cfg.handler.enter(m.visitor.value, m.log, id).Decline?)
  }

  /** What is left of it: the question, where the handler was asked. */
  function AfterDeclined(cfg: Config, m: M, id: nat): M
    requires Ok(cfg, m)
  {
    if m.visitor.None? || (m.table.Some? && cfg.tables[m.table.value].closed) then m
    else m.(log := m.log + [Asked(m.visitor.value, Enters(id))])
  }

  lemma DeclinedTurn(cfg: Config, m: M, id: nat)
    requires |m.scopes| < MAX_DEPTH
    requires Ok(cfg, m) && m.phase == Walk && m.pending == Nothing && id <= ID_MAX && Declined(cfg, m, id)
    ensures
      var n := AfterDeclined(cfg, m, id);
      && Ok(cfg, n) && n.phase == Walk && n.scopes == m.scopes && Skipping(cfg, n.(phase := Skip(1)), 1)
      && n.(phase := Skip(1)).(phase := Walk) == n && Machine.Depth(n.(phase := Skip(1))) == |m.scopes| + 1
    ensures Dispatch(cfg, m, SEQUENCE_START, id, -1) == Go(AfterDeclined(cfg, m, id).(phase := Skip(1)))
  {
    hide TablesOk, ScopesOk;
  }

  lemma DeclinedStep(cfg: Config, m: M, id: nat, s: seq<byte>)
    requires |m.scopes| < MAX_DEPTH
    requires Ok(cfg, m) && m.phase == Walk && m.pending == Nothing && id <= ID_MAX && Declined(cfg, m, id)
    requires ParseHead(cfg, s, |m.scopes|).Head? && s != []
    requires
      var h := ParseHead(cfg, s, |m.scopes|);
      h.wt == SEQUENCE_START && h.id == id && h.sub == -1 && h.pending == Nothing
    ensures
      Step(cfg, m, s) == Next(AfterDeclined(cfg, m, id).(phase := Skip(1)), ParseHead(cfg, s, |m.scopes|).used)
  {
    hide TablesOk, ScopesOk, ParseHead;
    DeclinedTurn(cfg, m, id);
    hide Dispatch, AfterDeclined, Declined;
    assert m.(pending := Nothing) == m;
  }

  /** A declined sequence, markers and all, is gone from the run. */
  lemma DeclinedRuns(cfg: Config, m: M, id: nat, kids: Forest, rest: seq<byte>)
    requires Ok(cfg, m) && m.phase == Walk && m.pending == Nothing && id <= ID_MAX && Declined(cfg, m, id)
    requires ForestOk(kids) && |m.scopes| + 1 + Height(kids) <= MAX_DEPTH
    ensures AllOk(Events(kids)) && Ok(cfg, AfterDeclined(cfg, m, id))
    ensures
      var all := Emit(Begin(id)) + (EmitAll(Events(kids)) + [SEQUENCE_END]);
      Run(cfg, m, all + rest) == Later(Run(cfg, AfterDeclined(cfg, m, id), rest), |all|)
  {
    hide Skipping, Machine.Depth, Declined, AfterDeclined, Ok, Emit, EmitAll, Events, ForestOk, AllOk, EventOk;
    hide Run, Step, ParseHead;
    EventsOk(kids);
    DeclinedTurn(cfg, m, id);
    var n := AfterDeclined(cfg, m, id);
    var q := n.(phase := Skip(1));
    BeginMet(cfg, id, [], |m.scopes|);
    var head, inner := Emit(Begin(id)), EmitAll(Events(kids)) + [SEQUENCE_END];
    BeginMet(cfg, id, inner + rest, |m.scopes|);
    DeclinedStep(cfg, m, id, head + (inner + rest));
    Unfold(cfg, m, head + (inner + rest));
    Behind(head, inner, rest);
    SequenceSkips(cfg, q, kids, rest);
    Chunks.LaterLater(Run(cfg, n, rest), |inner|, |head|);
  }

  lemma Behind(a: seq<byte>, b: seq<byte>, c: seq<byte>)
    ensures (a + (b + c))[|a|..] == b + c && a + b + c == a + (b + c)
  {
  }

  lemma BeginMet(cfg: Config, id: nat, rest: seq<byte>, depth: nat)
    requires id <= ID_MAX && depth < MAX_DEPTH
    ensures EventOk(Begin(id)) && Emit(Begin(id)) != []
    ensures ParseHead(cfg, Emit(Begin(id)) + rest, depth) == Head(SEQUENCE_START, id, -1, Nothing, |Emit(Begin(id))|)
  {
    hide Header, R.Words, ParseHead;
    var e := Begin(id);
    R.EmitParts(e);
    assert Header(R.IdOf(e), R.WireTypeOf(e)) + R.Words(e) == Emit(e) by { assert Emit(e) + [] == Emit(e); }
    HeadMet(cfg, e, rest, depth);
    assert R.Roomy(Caps.Loose(cfg));
    R.HeadInverts(Caps.Loose(cfg), e, rest, depth);
    Caps.LooseHead(cfg, Emit(e) + rest, depth);
  }

  // ----- over any bytes ---------------------------------------------------------------

  /** Where the depth comes down to `base`; or the bytes run out, or are malformed, before that. */
  datatype Ending = Closed(used: nat) | Open | Broken

  /** Between two headers at that depth. */
  predicate Down(m: M, base: nat) {
    !m.phase.Take? && m.pending == Nothing && Machine.Depth(m) <= base
  }

  function EndOf(cfg: Config, m: M, s: seq<byte>, base: nat): (e: Ending)
    requires Ok(cfg, m)
    ensures e.Closed? ==> e.used <= |s|
    decreases Measure(m, s)
  {
    StepSound(cfg, m, s);
    if Down(m, base) then Closed(0)
    else
      match Step(cfg, m, s)
      case Next(q, used) => Further(EndOf(cfg, q, s[used..], base), used)
      case Wait(_, _) => Open
      case Stop(_, _) => Broken
  }

  function Further(e: Ending, k: nat): Ending {
    if e.Closed? then Closed(e.used + k) else e
  }

  /** A skip and a listener's walk, side by side over the same bytes. */
  ghost predicate Twins(cfg: Config, m: M, lcfg: Config, n: M) {
    && Ok(cfg, m) && Ok(lcfg, n) && R.Listens(lcfg) && n.visitor.Some?
    && m.phase.Skip? && Machine.Depth(m) == |n.scopes| && n.table.None?
    && (if m.pending == Nothing then n.phase == Walk && n.pending == Nothing
        else Announced(Bare(m.pending)) && n.phase.Take? && n.phase.row.None? && n.pending == Bare(m.pending))
  }

  /** The walk comes to a text that is none. */
  ghost predicate TextBreaks(lcfg: Config, n: M, s: seq<byte>)
    requires Ok(lcfg, n)
  {
    exists q, t :: Chunks.Visits(lcfg, n, s, q, t) && q.phase.Take? && Skips.BadText(q.pending, t)
  }

  /** A value: dropped on one side, handed over on the other. */
  lemma ValueTwins(cfg: Config, m: M, lcfg: Config, n: M, s: seq<byte>)
    requires Twins(cfg, m, lcfg, n) && m.pending != Nothing
    ensures
      var a, b := Step(cfg, m, s), Step(lcfg, n, s);
      if Skips.BadText(n.pending, s) then b.Stop?
      else
        && (a.Next? <==> b.Next?) && (a.Wait? <==> b.Wait?)
        && (a.Next? ==> a.used == b.used && Twins(cfg, a.m, lcfg, b.m) && a.m.scopes == m.scopes)
  {
    StepSound(cfg, m, s);
    StepSound(lcfg, n, s);
    ListenerAmple(lcfg, n, n.phase.id);
    Skips.SkipAgreesWithRead(lcfg, n, n.phase.id, s);
    SkipAlike(m, n, s);
    VisitQuiet(lcfg, n, n.phase.id, s);
    hide SkipPending, Visit, Skips.BadText, TablesOk, ScopesOk, R.Listens;
    assert Step(cfg, m, s) == SkipPending(m, s);
    assert Step(lcfg, n, s) == Visit(lcfg, n, n.phase.id, s);
  }

  lemma ListenerAmple(cfg: Config, m: M, id: nat)
    requires R.Listens(cfg) && m.visitor.Some?
    ensures Skips.AnyWidth(cfg, m, id) && !Skips.Misplaced(cfg, m, id)
  {
    hide IntsFit, BytesFit, FloatsFit;
    forall signed: bool, count: nat
      ensures R.Widest(cfg.handler.layout(m.visitor.value, m.log, id, signed, count), signed, count)
    {
      R.AsksWidest(cfg.handler, m.visitor.value, m.log, id, signed, count);
    }
    match Bare(m.pending)
    case Payload(st, len) => R.PlacesAmply(cfg.handler, m.visitor.value, m.log, id, FIXLEN, st, len);
    case FArray(st, count) => R.PlacesAmply(cfg.handler, m.visitor.value, m.log, id, ARRAY_FIXLEN, st, count);
    case _ =>
  }

  lemma SkipAlike(m: M, n: M, s: seq<byte>)
    requires PendingOk(m.pending) && PendingOk(n.pending) && Announced(Bare(m.pending)) && n.pending == Bare(m.pending)
    ensures
      var a, b := SkipPending(m, s), SkipPending(n, s);
      && (a.Next? <==> b.Next?) && (a.Wait? <==> b.Wait?) && (a.Next? ==> a.used == b.used)
      && (a.Next? ==> a.m == m.(pending := Nothing))
  {
    hide Drain, ReadVarint;
  }

  lemma VisitQuiet(cfg: Config, m: M, id: nat, s: seq<byte>)
    requires m.visitor.Some? && Announced(Bare(m.pending))
    ensures
      var o := Visit(cfg, m, id, s);
      o.Next? ==>
        o.m.scopes == m.scopes && o.m.table == m.table && o.m.visitor == m.visitor && o.m.phase == Walk &&
        o.m.pending == Nothing
  {
    hide VisitPayload, VisitInts, VisitFloats, ReadVarint;
  }

  /** The same header on both sides, but for a cap. */
  lemma SameHead(cfg: Config, lcfg: Config, s: seq<byte>, depth: nat)
    requires R.Roomy(lcfg)
    ensures
      var h, l := ParseHead(cfg, s, depth), ParseHead(lcfg, s, depth);
      if h.Head? then l == h.(pending := Bare(h.pending)) else l == h
  {
    Caps.LooseHead(cfg, s, depth);
    CapsAlone(Caps.Loose(cfg), lcfg, s, depth);
  }

  lemma CapsAlone(cfg: Config, lcfg: Config, s: seq<byte>, depth: nat)
    requires R.Roomy(cfg) && R.Roomy(lcfg)
    ensures ParseHead(cfg, s, depth) == ParseHead(lcfg, s, depth)
  {
    hide ReadVarint;
  }

  /** What a listener does behind a header, which is never to refuse it. */
  lemma ListenerGoes(cfg: Config, m: M, s: seq<byte>)
    requires R.Hears(cfg, m) && s != []
    ensures
      var h := ParseHead(cfg, s, |m.scopes|);
      if !h.Head? then Step(cfg, m, s) == (if h.HeadShort? then Wait(m, 0) else Stop(m, Invalid))
      else
        && Step(cfg, m, s).Next? && Step(cfg, m, s).used == h.used && h.used <= |s|
        && var n := Step(cfg, m, s).m;
           && n.visitor.Some? && n.table.None? && Ok(cfg, n)
           && (if h.wt < SEQUENCE_START then
                 n.phase == Take(h.id, None) && n.pending == h.pending && |n.scopes| == |m.scopes|
               else
                 n.phase == Walk && n.pending == Nothing &&
                 |n.scopes| == |m.scopes| + if h.wt == SEQUENCE_START then 1 else -1)
  {
    R.NoTable(cfg, m);
    R.FromHears(cfg, m);
    ParseHeadBounds(cfg, s, |m.scopes|);
    R.HeadShortest(cfg, s, |m.scopes|);
    StepSound(cfg, m, s);
    var h := ParseHead(cfg, s, |m.scopes|);
    if h.Head? {
      var q := m.(pending := h.pending);
      if h.wt == SEQUENCE_START {
        R.WalksIn(cfg.handler, m.visitor.value, m.log, h.id);
      } else if h.wt == SEQUENCE_END {
        R.ToldHears(cfg, m, End);
      } else {
        R.Unbounded(cfg, AskWanted(q, h.id, h.wt, h.sub), h.id);
        R.TakesIt(cfg.handler, m.visitor.value, m.log, h.id, h.wt, h.sub, Size(Bare(h.pending)));
        AskingKeeps(q, h.id, h.wt, h.sub);
      }
    }
    hide ParseHead, Ok, HandlerBound, R.Listens;
  }

  lemma AskingKeeps(m: M, id: nat, wt: nat, sub: int)
    ensures
      var n := Consulted(m, id, wt, sub);
      n == m.(log := n.log)
  {
  }

  /** A header: one sequence more, one less, or a value, on both sides. */
  lemma HeadTwins(cfg: Config, m: M, lcfg: Config, n: M, s: seq<byte>)
    requires Twins(cfg, m, lcfg, n) && m.pending == Nothing
    ensures
      var a, b := Step(cfg, m, s), Step(lcfg, n, s);
      && (a.Next? <==> b.Next?) && (a.Wait? <==> b.Wait?)
      && (a.Next? ==>
            && a.used == b.used && a.m.scopes == m.scopes
            && (Twins(cfg, a.m, lcfg, b.m) || (Down(a.m, |m.scopes|) && Down(b.m, |m.scopes|))))
  {
    StepSound(cfg, m, s);
    StepSound(lcfg, n, s);
    if s == [] {
      NothingThere(cfg, m, s);
      NothingThere(lcfg, n, s);
    } else {
      SameHead(cfg, lcfg, s, Machine.Depth(m));
      ParseHeadBounds(cfg, s, Machine.Depth(m));
      ListenerGoes(lcfg, n, s);
      hide ParseHead, TablesOk, ScopesOk, R.Listens;
      SkipsHead(cfg, m, s);
      hide Step;
    }
  }

  lemma NothingThere(cfg: Config, m: M, s: seq<byte>)
    requires Ok(cfg, m) && !m.phase.Take? && m.pending == Nothing && s == []
    ensures Step(cfg, m, s) == Wait(m, 0)
  {
  }

  lemma SkipsHead(cfg: Config, m: M, s: seq<byte>)
    requires Ok(cfg, m) && m.phase.Skip? && m.pending == Nothing && s != []
    ensures
      var h := ParseHead(cfg, s, Machine.Depth(m));
      Step(cfg, m, s) ==
      if h.HeadShort? then Wait(m, 0) else if h.HeadBad? then Stop(m, Invalid)
      else Next(SkipHead(m, m.phase.nest, h.wt, h.pending), h.used)
  {
    hide ParseHead;
  }

  /**
   Over any bytes at all: a skip ends where the walk of a listener, met at the
   same depth, comes back down to the depth the skip began at; it runs out of
   bytes where that does, and is malformed where that is.  The one difference
   is a text that is none, which a skip does not look into.
   */
  lemma {:induction false} SkipEndsWithWalk(cfg: Config, m: M, lcfg: Config, n: M, s: seq<byte>)
    requires Twins(cfg, m, lcfg, n)
    ensures
      var skip, walk := EndOf(cfg, m, s, |m.scopes|), EndOf(lcfg, n, s, |m.scopes|);
      skip == walk || (walk.Broken? && TextBreaks(lcfg, n, s))
    decreases Measure(m, s)
  {
    StillUp(cfg, m, lcfg, n);
    hide Step, Ok, Twins;
    StepSound(cfg, m, s);
    StepSound(lcfg, n, s);
    var a, b := Step(cfg, m, s), Step(lcfg, n, s);
    assert Chunks.Visits(lcfg, n, s, n, s);
    if m.pending != Nothing && Skips.BadText(n.pending, s) {
      ValueTwins(cfg, m, lcfg, n, s);
      assert TextBreaks(lcfg, n, s) by { TwinTakes(cfg, m, lcfg, n); }
    } else {
      if m.pending == Nothing {
        HeadTwins(cfg, m, lcfg, n, s);
      } else {
        ValueTwins(cfg, m, lcfg, n, s);
      }
      if a.Next? && Twins(cfg, a.m, lcfg, b.m) {
        SkipEndsWithWalk(cfg, a.m, lcfg, b.m, s[a.used..]);
        if TextBreaks(lcfg, b.m, s[b.used..]) {
          var q, t :| Chunks.Visits(lcfg, b.m, s[b.used..], q, t) && q.phase.Take? && Skips.BadText(q.pending, t);
          assert Chunks.Visits(lcfg, n, s, q, t);
        }
      }
    }
  }

  lemma StillUp(cfg: Config, m: M, lcfg: Config, n: M)
    requires Twins(cfg, m, lcfg, n)
    ensures Ok(cfg, m) && Ok(lcfg, n) && !Down(m, |m.scopes|) && !Down(n, |m.scopes|)
  {
  }

  lemma TwinTakes(cfg: Config, m: M, lcfg: Config, n: M)
    requires Twins(cfg, m, lcfg, n) && m.pending != Nothing
    ensures n.phase.Take?
  {
  }

  /** Where a skip ends, the walk goes on, with slots, scopes and calls as they were. */
  lemma {:induction false} EndRuns(cfg: Config, m: M, s: seq<byte>)
    requires Ok(cfg, m) && m.phase.Skip? && EndOf(cfg, m, s, |m.scopes|).Closed?
    ensures
      var k := EndOf(cfg, m, s, |m.scopes|).used;
      var n := m.(phase := Walk, pending := Nothing);
      Ok(cfg, n) && Run(cfg, m, s) == Later(Run(cfg, n, s[k..]), k)
    decreases Measure(m, s)
  {
    hide Step, Ok;
    StepSound(cfg, m, s);
    StaysSkipping(cfg, m, s);
    Unfold(cfg, m, s);
    var o := Step(cfg, m, s);
    if o.m.phase.Skip? {
      EndRuns(cfg, o.m, s[o.used..]);
      var k := EndOf(cfg, o.m, s[o.used..], |m.scopes|).used;
      assert s[o.used..][k..] == s[o.used + k..];
      Chunks.LaterLater(Run(cfg, m.(phase := Walk, pending := Nothing), s[o.used + k..]), k, o.used);
    } else {
      Chunks.LaterLater(Run(cfg, o.m, s[o.used..]), 0, o.used);
      assert s[o.used..][0..] == s[o.used..];
    }
  }

  lemma StaysSkipping(cfg: Config, m: M, s: seq<byte>)
    requires Ok(cfg, m) && m.phase.Skip?
    ensures !Down(m, |m.scopes|)
    ensures
      var o := Step(cfg, m, s);
      o.Next? ==>
        && o.m == m.(phase := o.m.phase, pending := o.m.pending) && (o.m.phase.Skip? || o.m.phase.Walk?)
        && (o.m.phase.Walk? ==> o.m.pending == Nothing && Down(o.m, |m.scopes|))
  {
    hide ParseHead, ScopesOk, TablesOk, Drain, ReadVarint;
    ParseHeadBounds(cfg, s, Machine.Depth(m));
  }

  // ----- the context of a sequence ----------------------------------------------------

  /** Fields met in one state are met by the same table and handler as in the other. */
  predicate SameContext(m: M, n: M) {
    n.scopes == m.scopes && n.table == m.table && n.visitor == m.visitor
  }

  /** Somewhere in a sequence that began at `m`: in the scope it opened, or skipping it. */
  predicate Inside(m: M, n: M) {
    || (n.phase.Skip? && SameContext(m, n))
    || (&& |n.scopes| > |m.scopes| && n.scopes[..|m.scopes|] == m.scopes
        && n.scopes[|m.scopes|].table == m.table && n.scopes[|m.scopes|].visitor == m.visitor)
  }

  /** What a header makes of the scopes: nothing, one more, or one less and its outside back. */
  lemma DispatchContext(cfg: Config, m: M, wt: nat, id: nat, sub: int)
    requires Ok(cfg, m) && m.phase == Walk && wt < 8 && id <= ID_MAX
    requires wt == SEQUENCE_END ==> m.scopes != []
    requires wt < SEQUENCE_START ==> Announced(Bare(m.pending))
    ensures
      var t := Dispatch(cfg, m, wt, id, sub);
      t.Go? ==>
        if wt == SEQUENCE_END then
          && t.m.scopes == m.scopes[..|m.scopes| - 1] && t.m.phase == Walk && t.m.pending == m.pending
          && t.m.table == m.scopes[|m.scopes| - 1].table && t.m.visitor == m.scopes[|m.scopes| - 1].visitor
        else if wt == SEQUENCE_START then
          (t.m.phase == Skip(1) && SameContext(m, t.m)) ||
          (exists opener :: t.m.scopes == m.scopes + [Frame(m.table, m.visitor, opener)])
        else SameContext(m, t.m)
  {
    hide TablesOk, ScopesOk, Settle, HandlerBound, Select, Accepts;
    if wt == SEQUENCE_START {
      var row := Lookup(cfg, m.table, id, wt, sub);
      if row.Some? {
        assert SlotsOk(row.value, |m.words|, |m.objects|) by { Caps.RowSlots(cfg, m, id, wt, sub); }
        hide SlotsOk, Lookup;
      }
    } else if wt < SEQUENCE_START && PendingOk(m.pending) {
      OfferShape(cfg, m, id, wt, sub);
      hide Offer, Lookup, Mistyped;
    }
  }

  /**
   Who takes a sequence.  A row that is one descends into its own table, under
   the handler there was; otherwise the handler is asked, unless the table is
   closed, and it walks on without a table, hands the sequence to a handler of
   its own, or declines it.
   */
  lemma SequenceRouted(cfg: Config, m: M, id: nat)
    requires Ok(cfg, m) && m.phase == Walk && m.pending == Nothing && id <= ID_MAX
    ensures
      var rows := Caps.Here(cfg, m.table);
      var t := Dispatch(cfg, m, SEQUENCE_START, id, -1);
      if id in rows && rows[id].kind.KSequence? then
        t.Go? ==>
          && t.m.scopes == m.scopes + [Frame(m.table, m.visitor, ByTable)] && t.m.phase == Walk
          && t.m.table == Some(rows[id].child) && t.m.visitor == m.visitor && t.m.log == m.log
      else if !Caps.Heard(cfg, m) then t == Go(m.(phase := Skip(1)))
      else
        var who := m.visitor.value;
        var told := m.log + [Call(who, false, Begin(id))];
        match cfg.handler.enter(who, m.log, id)
        case Decline => t == Go(m.(phase := Skip(1), log := m.log + [Asked(who, Enters(id))]))
        case Same =>
          t == Go(m.(scopes := m.scopes + [Frame(m.table, m.visitor, ByHandler)], table := None, log := told))
        case Child(v) =>
          t == Go(m.(scopes := m.scopes + [Frame(m.table, m.visitor, ByChild)], table := None, visitor := Some(v),
                     log := told))
  {
    hide TablesOk, ScopesOk, Select;
    Caps.RowSlots(cfg, m, id, SEQUENCE_START, -1);
    hide SlotsOk;
  }

  /** A step inside stays inside, or is behind the end with the outside back. */
  lemma StepContext(cfg: Config, m: M, n: M, s: seq<byte>)
    requires Ok(cfg, n) && Inside(m, n) && !Down(n, |m.scopes|)
    ensures
      var o := Step(cfg, n, s);
      o.Next? ==> Inside(m, o.m) || (o.m.phase == Walk && o.m.pending == Nothing && SameContext(m, o.m))
  {
    hide TakeMapped, Visit, ParseHead, Dispatch, TablesOk, ScopesOk, SkipPending;
    if n.phase.Take? {
      TakeContext(cfg, n, s);
    } else if n.pending != Nothing {
      SkipContext(n, s);
    } else if s != [] {
      ParseHeadBounds(cfg, s, Machine.Depth(n));
      var h := ParseHead(cfg, s, Machine.Depth(n));
      if h.Head? && n.phase.Walk? {
        DispatchContext(cfg, n.(pending := h.pending), h.wt, h.id, h.sub);
      }
    }
  }

  lemma TakeContext(cfg: Config, n: M, s: seq<byte>)
    requires Ok(cfg, n) && n.phase.Take?
    ensures SameContext(n, Step(cfg, n, s).m)
  {
    hide TablesOk, ScopesOk, TakeMapped, Visit;
  }

  lemma SkipContext(n: M, s: seq<byte>)
    requires PendingOk(n.pending) && n.pending != Nothing
    ensures SameContext(n, SkipPending(n, s).m) && SkipPending(n, s).m.phase == n.phase
  {
    hide Drain, ReadVarint;
  }

  /** From one state of a run to another, so many bytes on. */
  predicate RunsOn(cfg: Config, m: M, s: seq<byte>, n: M, k: nat) {
    Ok(cfg, m) && Ok(cfg, n) && k <= |s| && Run(cfg, m, s) == Later(Run(cfg, n, s[k..]), k)
  }

  lemma StepRunsOn(cfg: Config, m: M, s: seq<byte>)
    requires Ok(cfg, m) && Step(cfg, m, s).Next?
    ensures RunsOn(cfg, m, s, Step(cfg, m, s).m, Step(cfg, m, s).used)
  {
    hide Step, Ok, Run;
    Unfold(cfg, m, s);
  }

  lemma RunsFurther(cfg: Config, m: M, s: seq<byte>, n: M, i: nat, q: M, k: nat)
    requires RunsOn(cfg, m, s, n, i) && RunsOn(cfg, n, s[i..], q, k)
    ensures RunsOn(cfg, m, s, q, i + k)
  {
    hide Ok, Run;
    assert s[i..][k..] == s[i + k..];
    Chunks.LaterLater(Run(cfg, q, s[i + k..]), k, i);
  }

  /** Where such a sequence ends, the state that was outside it is back. */
  lemma {:induction false} InsideEnds(cfg: Config, m: M, n: M, s: seq<byte>) returns (q: M)
    requires Ok(cfg, n) && Inside(m, n) && EndOf(cfg, n, s, |m.scopes|).Closed?
    ensures q.phase == Walk && q.pending == Nothing && SameContext(m, q)
    ensures RunsOn(cfg, n, s, q, EndOf(cfg, n, s, |m.scopes|).used)
    decreases Measure(n, s)
  {
    hide Step, Ok, Inside, SameContext, Down, RunsOn, Run;
    NotYetDown(cfg, m, n);
    StepContext(cfg, m, n, s);
    StepSound(cfg, n, s);
    StepRunsOn(cfg, n, s);
    var o := Step(cfg, n, s);
    var rest := s[o.used..];
    if Inside(m, o.m) {
      q := InsideEnds(cfg, m, o.m, rest);
      RunsFurther(cfg, n, s, o.m, o.used, q, EndOf(cfg, o.m, rest, |m.scopes|).used);
    } else {
      q := o.m;
      BackDown(m, q);
    }
  }

  lemma NotYetDown(cfg: Config, m: M, n: M)
    requires Ok(cfg, n) && Inside(m, n)
    ensures !Down(n, |m.scopes|)
  {
  }

  lemma BackDown(m: M, q: M)
    requires q.phase == Walk && q.pending == Nothing && SameContext(m, q)
    ensures Down(q, |m.scopes|)
  {
  }

  /**
   Over any bytes, and whoever takes the sequence or nobody does: behind its
   end marker the walk goes on in the scopes, by the table and with the handler
   that were there before its start marker.
   */
  lemma SequenceRestores(cfg: Config, m: M, s: seq<byte>, n: M, used: nat) returns (q: M)
    requires Ok(cfg, m) && m.phase == Walk && m.pending == Nothing
    requires Step(cfg, m, s) == Next(n, used) && Machine.Depth(n) > |m.scopes|
    requires Ok(cfg, n) && used <= |s| && EndOf(cfg, n, s[used..], |m.scopes|).Closed?
    ensures q.phase == Walk && q.pending == Nothing && SameContext(m, q)
    ensures RunsOn(cfg, m, s, q, used + EndOf(cfg, n, s[used..], |m.scopes|).used)
  {
    hide Step, Ok, Inside, SameContext, EndOf, RunsOn, Run;
    Begins(cfg, m, s);
    StepRunsOn(cfg, m, s);
    q := InsideEnds(cfg, m, n, s[used..]);
    RunsFurther(cfg, m, s, n, used, q, EndOf(cfg, n, s[used..], |m.scopes|).used);
  }

  lemma Begins(cfg: Config, m: M, s: seq<byte>)
    requires Ok(cfg, m) && m.phase == Walk && m.pending == Nothing
    requires Step(cfg, m, s).Next? && Machine.Depth(Step(cfg, m, s).m) > |m.scopes|
    ensures Inside(m, Step(cfg, m, s).m)
  {
    hide ParseHead, Dispatch, TablesOk, ScopesOk;
    if s != [] {
      ParseHeadBounds(cfg, s, Machine.Depth(m));
      var h := ParseHead(cfg, s, Machine.Depth(m));
      if h.Head? {
        DispatchContext(cfg, m.(pending := h.pending), h.wt, h.id, h.sub);
        DispatchSound(cfg, m.(pending := h.pending), h.wt, h.id, h.sub);
      }
    }
  }

  // ----- over any cutting -------------------------------------------------------------

  /** The bytes up to the end, and any that follow, end it there. */
  lemma {:induction false} EndLocal(cfg: Config, m: M, s: seq<byte>, base: nat, p: nat)
    requires Ok(cfg, m) && EndOf(cfg, m, s, base).Closed? && EndOf(cfg, m, s, base).used <= p <= |s|
    ensures EndOf(cfg, m, s[..p], base) == EndOf(cfg, m, s, base)
    decreases Measure(m, s)
  {
    hide Step, Ok;
    StepSound(cfg, m, s);
    if !Down(m, base) {
      var o := Step(cfg, m, s);
      Locality.StepLocal(cfg, m, s, p);
      assert s[..p][o.used..] == s[o.used..][..p - o.used];
      EndLocal(cfg, o.m, s[o.used..], base, p - o.used);
    }
  }

  /** Short of its end a skip comes to no value. */
  lemma {:induction false} PrefixCalm(cfg: Config, m: M, s: seq<byte>, p: nat)
    requires Ok(cfg, m) && m.phase.Skip? && EndOf(cfg, m, s, |m.scopes|).Closed?
    requires p <= EndOf(cfg, m, s, |m.scopes|).used
    ensures forall n, t | Chunks.Visits(cfg, m, s[..p], n, t) :: Overlays.Calm(cfg, n)
    decreases Measure(m, s)
  {
    hide Step, Ok;
    StepSound(cfg, m, s);
    StaysSkipping(cfg, m, s);
    StepSound(cfg, m, s[..p]);
    assert s[..p] + s[p..] == s;
    Chunks.StepLasts(cfg, m, s[..p], s[p..]);
    var o := Step(cfg, m, s[..p]);
    if o.Next? {
      assert s[..p][o.used..] == s[o.used..][..p - o.used];
      if o.m.phase.Skip? {
        PrefixCalm(cfg, o.m, s[o.used..], p - o.used);
      } else {
        assert s[..p][o.used..] == [];
        NothingThere(cfg, o.m, []);
      }
    }
  }

  /** Two feeds of a skipped stretch are one. */
  lemma {:induction false} CutOnce(cfg: Config, m: M, s: seq<byte>, pre: seq<byte>, chunks: seq<seq<byte>>)
    requires Ok(cfg, m) && m.phase.Skip? && EndOf(cfg, m, s, |m.scopes|) == Closed(|s|)
    requires pre + Chunks.Flatten(chunks) == s
    ensures
      var d := Chunks.Live(m, []);
      Chunks.FeedAll(cfg, Chunks.Feed(cfg, d, pre), chunks) == Chunks.Feed(cfg, d, s)
    decreases |chunks|
  {
    hide Chunks.Feed, Ok, EndOf, Chunks.Resumes, Overlays.Calm, Chunks.Visits;
    var d := Chunks.Live(m, []);
    if chunks == [] {
      assert pre + [] == pre;
    } else {
      assert s[..|pre|] == pre && [] + pre == pre;
      PrefixCalm(cfg, m, s, |pre|);
      Overlays.CalmResumes(cfg, m, pre, chunks[0]);
      Chunks.FeedResumes(cfg, d, pre, chunks[0]);
      assert pre + chunks[0] + Chunks.Flatten(chunks[1..]) == pre + (chunks[0] + Chunks.Flatten(chunks[1..]));
      CutOnce(cfg, m, s, pre + chunks[0], chunks[1..]);
    }
  }

  /**
   However the bytes of a skipped sequence are cut, and on any tables, behind
   the last of them the decode is between two fields again with nothing held,
   and with slots, scopes and calls as they were.
   */
  lemma SkipOverFeeds(cfg: Config, m: M, s: seq<byte>, chunks: seq<seq<byte>>)
    requires Ok(cfg, m) && m.phase.Skip? && EndOf(cfg, m, s, |m.scopes|).Closed? && chunks != []
    requires Chunks.Flatten(chunks) == s[..EndOf(cfg, m, s, |m.scopes|).used]
    ensures Chunks.FeedAll(cfg, Chunks.Live(m, []), chunks) == Chunks.Live(m.(phase := Walk, pending := Nothing), [])
  {
    hide Step, Ok, EndOf, Chunks.Flatten;
    var k := EndOf(cfg, m, s, |m.scopes|).used;
    EndLocal(cfg, m, s, |m.scopes|, k);
    var t := s[..k];
    EndRuns(cfg, m, t);
    var n := m.(phase := Walk, pending := Nothing);
    assert t[k..] == [] && [] + t == t;
    Unfold(cfg, n, []);
    NothingThere(cfg, n, []);
    FlattenFirst(chunks);
    CutOnce(cfg, m, t, chunks[0], chunks[1..]);
    hide Chunks.Feed;
    assert Chunks.FeedAll(cfg, Chunks.Live(m, []), chunks) ==
           Chunks.FeedAll(cfg, Chunks.Feed(cfg, Chunks.Live(m, []), chunks[0]), chunks[1..]);
  }

  lemma FlattenFirst(chunks: seq<seq<byte>>)
    requires chunks != []
    ensures Chunks.Flatten(chunks) == chunks[0] + Chunks.Flatten(chunks[1..])
  {
  }
}

/**
 Whole sessions.  Any list of calls to an encoder, over any array size and any
 sink, puts out what one pass of the framing machine writes; any chunks fed to
 a decoder, over any reassembly buffer that holds them, are one feed.
 */
module Sessions {
  import opened Wire
  import opened Message
  import opened Framing
  import opened Encoding
  import Chunks
  import Decoding
  import Machine
  import RoundTrip
  import Schema

  /** Does what is put out stand in the encoder's array, if that is all there is? */
  predicate Stands(room: Option<nat>, out: seq<byte>) {
    room.Some? ==> |out| <= room.value
  }

  // ----- any calls --------------------------------------------------------------------

  /** A call of the encoder: a writer with the width or the bound it declares, or a sequence marker. */
  datatype Request =
    | PutInt(id: int, signed: bool, lo: int, hi: int, value: int)
    | PutFixlen(id: int, st: nat, payload: seq<byte>)
    | PutInts(id: int, signed: bool, lo: int, hi: int, values: seq<int>, cap: int)
    | PutFloats(id: int, st: nat, payload: seq<byte>, cap: int)
    | Enter(id: int)
    | Leave
    | LeaveKept

  /** What the writers' own signatures guarantee: a width of the format's, a subtype, a payload of its shape. */
  predicate Proper(q: Request) {
    match q
    case PutInt(_, signed, lo, hi, _) => WidthOk(signed, lo, hi)
    case PutFixlen(_, st, payload) => st <= BLOB && (|payload| <= FIXLEN_MAX ==> FixlenOk(st, payload))
    case PutInts(_, signed, lo, hi, _, _) => WidthOk(signed, lo, hi)
    case PutFloats(_, st, payload, _) => st <= FP64 && Whole(st, payload)
    case _ => true
  }

  predicate IdIn(id: int) {
    0 <= id <= 0x7FFF_FFFF
  }

  /** An array of so many elements, under a bound that is none if it is negative. */
  predicate Counted(count: nat, cap: int) {
    count <= 0x7FFF_FFFF && (cap < 0 || count <= cap)
  }

  predicate AllWithin(vs: seq<int>, lo: int, hi: int) {
    forall i | 0 <= i < |vs| :: lo <= vs[i] <= hi
  }

  lemma AllWithinIff(vs: seq<int>, lo: int, hi: int)
    ensures AllWithin(vs, lo, hi) <==> FirstBad(vs, lo, hi) == |vs|
  {
  }

  /** The operation a call stands for, where its arguments are in range. */
  function Meant(q: Request): Option<Op>
    requires Proper(q)
  {
    match q
    case PutInt(id, signed, lo, hi, v) => if lo <= v <= hi && IdIn(id) then Some(Write(Int(id, signed, v))) else None
    case PutFixlen(id, st, payload) =>
      if |payload| <= FIXLEN_MAX && IdIn(id) then Some(Write(Fixlen(id, st, payload))) else None
    case PutInts(id, signed, lo, hi, vs, cap) =>
      if Counted(|vs|, cap) && IdIn(id) && AllWithin(vs, lo, hi) then
        AllWithinIff(vs, lo, hi);
        Some(Write(Ints(id, signed, vs)))
      else None
    case PutFloats(id, st, payload, cap) =>
      if Counted(FloatCount(st, payload), cap) && IdIn(id) then Some(Write(Floats(id, st, payload))) else None
    case Enter(id) => Some(Open(id))
    case Leave => Some(Close)
    case LeaveKept => Some(CloseKeep)
  }

  /** An integer array whose header is in order and one of whose elements is not. */
  predicate Breaks(q: Request) {
    q.PutInts? && Counted(|q.values|, q.cap) && IdIn(q.id) && !AllWithin(q.values, q.lo, q.hi)
  }

  /** The header of such an array and the elements before the bad one. */
  function Fragment(q: Request): seq<byte>
    requires Proper(q) && Breaks(q)
  {
    Header(q.id, if q.signed then ARRAY_SIGNED else ARRAY_UNSIGNED) + Varint(|q.values|) +
    Elements(q.signed, q.values[..FirstBad(q.values, q.lo, q.hi)])
  }

  /**
   What a call leaves behind.  One that is refused leaves everything as it was,
   but for an integer array with a bad element: its header and the elements
   before that one are out.
   */
  function After(s: Frames, q: Request): (t: Frames)
    requires FramesOk(s) && Proper(q)
    ensures FramesOk(t)
  {
    if Breaks(q) then Frames(s.out + (Headers(s.pending) + Fragment(q)), [], s.depth)
    else if Meant(q).Some? then Step(s, Meant(q).value)
    else s
  }

  predicate Refused(s: Frames, q: Request)
    requires Proper(q)
  {
    Meant(q).None? || !Accepted(s, Meant(q).value)
  }

  predicate AllProper(qs: seq<Request>) {
    forall i | 0 <= i < |qs| :: Proper(qs[i])
  }

  function AfterAll(s: Frames, qs: seq<Request>): (t: Frames)
    requires FramesOk(s) && AllProper(qs)
    ensures FramesOk(t)
    decreases |qs|
  {
    if qs == [] then s else AfterAll(After(s, qs[0]), qs[1..])
  }

  /** One call. */
  method Perform(enc: Encoder, q: Request) returns (r: Outcome)
    requires enc.Valid() && Proper(q)
    modifies enc, enc.pool, enc.pending
    ensures enc.Valid() && enc.Steady()
    ensures !r.Full? ==> (r.Argument? <==> Refused(old(enc.State()), q)) && enc.State() == After(old(enc.State()), q)
    ensures r.Full? <==> !Stands(enc.Room(), After(old(enc.State()), q).out)
  {
    enc.Filled();
    ghost var was := enc.State();
    hide Step, Accepted, PiecesOk, Encoder.Plain, After, Refused, Meant, Breaks, Encoder.Room;
    match q {
      case Enter(id) =>
        MarkerIs(was, q, Open(id));
        r := enc.WriteSequenceBegin(id);
        enc.Filled();
      case Leave =>
        MarkerIs(was, q, Close);
        r := enc.WriteSequenceEnd();
        RoomIs(enc);
      case LeaveKept =>
        MarkerIs(was, q, CloseKeep);
        r := enc.WriteSequenceEndKeep();
        RoomIs(enc);
      case _ =>
        r := PerformWrite(enc, q);
    }
  }

  lemma RoomIs(enc: Encoder)
    ensures enc.Room().Some? <==> enc.shape.Fixed? && enc.base <= enc.fixed.Length
  {
  }

  lemma MarkerIs(s: Frames, q: Request, op: Op)
    requires FramesOk(s) && Proper(q) && (q.Enter? || q.Leave? || q.LeaveKept?) && Meant(q) == Some(op)
    ensures After(s, q) == Step(s, op) && (Refused(s, q) <==> !Accepted(s, op))
  {
    hide Step;
  }

  /** A field, through the writer its kind has. */
  method PerformWrite(enc: Encoder, q: Request) returns (r: Outcome)
    requires enc.Valid() && Proper(q) && (q.PutInt? || q.PutFixlen? || q.PutInts? || q.PutFloats?)
    modifies enc, enc.pool
    ensures enc.Valid() && enc.Steady()
    ensures !r.Full? ==> (r.Argument? <==> Refused(old(enc.State()), q)) && enc.State() == After(old(enc.State()), q)
    ensures r.Full? <==> !Stands(enc.Room(), After(old(enc.State()), q).out)
  {
    if q.PutInts? {
      r := PerformInts(enc, q);
    } else if q.PutInt? {
      r := PerformInt(enc, q);
    } else {
      r := PerformPayload(enc, q);
    }
  }

  method PerformInt(enc: Encoder, q: Request) returns (r: Outcome)
    requires enc.Valid() && Proper(q) && q.PutInt?
    modifies enc, enc.pool
    ensures enc.Valid() && enc.Steady()
    ensures !r.Full? ==> (r.Argument? <==> Refused(old(enc.State()), q)) && enc.State() == After(old(enc.State()), q)
    ensures r.Full? <==> !Stands(enc.Room(), After(old(enc.State()), q).out)
  {
    enc.Filled();
    ghost var was := enc.State();
    hide Emit, Step, Progress, PiecesOk, Encoder.Plain, Encoder.Room, Refused, After, Headers;
    r := enc.WriteInt(q.id, q.signed, q.lo, q.hi, q.value);
    enc.Filled();
    if Meant(q).Some? {
      WrittenIs(r, enc.Room(), was, enc.State(), q);
    } else {
      RefusedIs(was, q);
    }
  }

  /** Strings, blobs and floats. */
  method PerformPayload(enc: Encoder, q: Request) returns (r: Outcome)
    requires enc.Valid() && Proper(q) && (q.PutFixlen? || q.PutFloats?)
    modifies enc, enc.pool
    ensures enc.Valid() && enc.Steady()
    ensures !r.Full? ==> (r.Argument? <==> Refused(old(enc.State()), q)) && enc.State() == After(old(enc.State()), q)
    ensures r.Full? <==> !Stands(enc.Room(), After(old(enc.State()), q).out)
  {
    enc.Filled();
    ghost var was := enc.State();
    hide Emit, Step, Progress, PiecesOk, Encoder.Plain, Encoder.Room, Refused, After, Whole, FloatCount, Headers;
    if q.PutFixlen? {
      r := enc.WriteFixlen(q.id, q.st, q.payload);
    } else {
      r := enc.WriteFloats(q.id, q.st, q.payload, q.cap);
    }
    enc.Filled();
    if Meant(q).Some? {
      WrittenIs(r, enc.Room(), was, enc.State(), q);
    } else {
      RefusedIs(was, q);
    }
  }

  /** An integer array, whose elements are looked at one by one behind the header. */
  method PerformInts(enc: Encoder, q: Request) returns (r: Outcome)
    requires enc.Valid() && Proper(q) && q.PutInts?
    modifies enc, enc.pool
    ensures enc.Valid() && enc.Steady()
    ensures !r.Full? ==> (r.Argument? <==> Refused(old(enc.State()), q)) && enc.State() == After(old(enc.State()), q)
    ensures r.Full? <==> !Stands(enc.Room(), After(old(enc.State()), q).out)
  {
    enc.Filled();
    ghost var was := enc.State();
    hide Emit, Elements, Step, Progress, PiecesOk, Encoder.Plain, Encoder.Room, Refused, After, FirstBad, Headers;
    r := enc.WriteInts(q.id, q.signed, q.lo, q.hi, q.values, q.cap);
    enc.Filled();
    if Breaks(q) {
      BrokenIs(r, enc.Room(), was, enc.State(), q);
    } else if Meant(q).Some? {
      WrittenIs(r, enc.Room(), was, enc.State(), q);
    } else {
      RefusedIs(was, q);
    }
  }

  lemma RefusedIs(s: Frames, q: Request)
    requires FramesOk(s) && Proper(q) && Meant(q).None? && !Breaks(q)
    ensures After(s, q) == s && Refused(s, q)
  {
  }

  lemma BrokenIs(r: Outcome, room: Option<nat>, s: Frames, t: Frames, q: Request)
    requires FramesOk(s) && Proper(q) && Breaks(q) && !r.Done? && t.pending == [] && t.depth == s.depth
    requires
      var k := FirstBad(q.values, q.lo, q.hi);
      Progress(if r.Argument? then Done else r, room, s.out, t.out, Headers(s.pending) +
        (Header(q.id, if q.signed then ARRAY_SIGNED else ARRAY_UNSIGNED) + Varint(|q.values|) +
         Elements(q.signed, q.values[..k])))
    ensures Refused(s, q) && (r.Argument? ==> t == After(s, q))
    ensures r.Full? <==> !Stands(room, After(s, q).out)
  {
    hide Headers, Header, Varint, Elements;
  }

  lemma WrittenIs(r: Outcome, room: Option<nat>, s: Frames, t: Frames, q: Request)
    requires FramesOk(s) && Proper(q) && !Breaks(q) && Meant(q).Some? && Meant(q).value.Write? && !r.Argument?
    requires Wrote(r, room, s, t, Meant(q).value.e)
    ensures !Refused(s, q) && (r.Done? ==> t == After(s, q))
    ensures r.Full? <==> !Stands(room, After(s, q).out)
  {
    hide Emit, Headers, Meant;
    var e := Meant(q).value.e;
    if r.Done? {
      WroteIsStep(room, s, t, e);
    }
    assert Step(s, Write(e)).out == s.out + Headers(s.pending) + Emit(e);
  }

  /**
   Any calls at all, in range or not, in any order: the bytes put out and the
   headers held back are the framing machine's.  Neither the array size nor the
   sink's answers appear in the outcome, but for one case: without a sink the
   calls run out of array exactly where what they put out does not fit it.
   */
  method PerformAll(enc: Encoder, qs: seq<Request>) returns (full: bool)
    requires enc.Valid() && AllProper(qs)
    modifies enc, enc.pool, enc.pending
    ensures enc.Valid() && enc.Steady()
    ensures !full ==> enc.State() == AfterAll(old(enc.State()), qs)
    ensures full <==> !Stands(enc.Room(), AfterAll(old(enc.State()), qs).out)
  {
    enc.Filled();
    hide After, PiecesOk, Encoder.Plain, Encoder.Room, Proper;
    ghost var was := enc.State();
    assert qs[..0] == [];
    for i := 0 to |qs|
      invariant enc.Valid() && enc.State() == AfterAll(was, qs[..i]) && enc.Steady()
      invariant Stands(enc.Room(), enc.State().out)
    {
      AfterOneMore(was, qs, i);
      var r := Perform(enc, qs[i]);
      if r.Full? {
        OutGrows(AfterAll(was, qs[..i + 1]), qs[i + 1..]);
        return true;
      }
    }
    assert qs[..|qs|] == qs;
    return false;
  }

  lemma {:induction false} AfterSplits(s: Frames, a: seq<Request>, b: seq<Request>)
    requires FramesOk(s) && AllProper(a) && AllProper(b)
    ensures AllProper(a + b) && AfterAll(s, a + b) == AfterAll(AfterAll(s, a), b)
    decreases |a|
  {
    hide After, Proper;
    if a == [] {
      assert a + b == b;
    } else {
      assert (a + b)[1..] == a[1..] + b;
      AfterSplits(After(s, a[0]), a[1..], b);
    }
  }

  lemma AfterOneMore(s: Frames, qs: seq<Request>, i: nat)
    requires FramesOk(s) && AllProper(qs) && i < |qs|
    ensures AfterAll(s, qs[..i + 1]) == After(AfterAll(s, qs[..i]), qs[i])
    ensures AfterAll(s, qs) == AfterAll(AfterAll(s, qs[..i + 1]), qs[i + 1..])
  {
    hide After, Proper;
    var t := AfterAll(s, qs[..i]);
    assert qs[..i + 1] == qs[..i] + [qs[i]] && qs == qs[..i + 1] + qs[i + 1..];
    AfterSplits(s, qs[..i], [qs[i]]);
    AfterSplits(s, qs[..i + 1], qs[i + 1..]);
    assert [qs[i]][1..] == [];
    assert AfterAll(t, [qs[i]]) == AfterAll(After(t, qs[i]), []);
  }

  /** What is out stays out. */
  lemma {:induction false} OutGrows(s: Frames, qs: seq<Request>)
    requires FramesOk(s) && AllProper(qs)
    ensures s.out <= AfterAll(s, qs).out
    decreases |qs|
  {
    hide After, Proper;
    if qs != [] {
      AfterGrows(s, qs[0]);
      OutGrows(After(s, qs[0]), qs[1..]);
    }
  }

  lemma AfterGrows(s: Frames, q: Request)
    requires FramesOk(s) && Proper(q)
    ensures s.out <= After(s, q).out
  {
    hide Headers, Emit, Fragment, Meant, Breaks;
  }

  // ----- whole messages ---------------------------------------------------------------

  /** The call for an operation, of the widest writer there is. */
  function Call(op: Op): Request {
    match op
    case Write(e) =>
      (match e
       case Int(id, signed, v) => PutInt(id, signed, Low(signed), High(signed), v)
       case Fixlen(id, st, payload) => PutFixlen(id, st, payload)
       case Ints(id, signed, vs) => PutInts(id, signed, Low(signed), High(signed), vs, -1)
       case Floats(id, st, payload) => PutFloats(id, st, payload, -1)
       case Begin(id) => Enter(id)
       case End => Leave)
    case Open(id) => Enter(id)
    case Close => Leave
    case CloseKeep => LeaveKept
  }

  function Low(signed: bool): int {
    if signed then -TWO63 else 0
  }

  function High(signed: bool): int {
    if signed then TWO63 - 1 else TWO64 - 1
  }

  function Calls(ops: seq<Op>): (qs: seq<Request>)
    ensures |qs| == |ops|
  {
    seq(|ops|, i requires 0 <= i < |ops| => Call(ops[i]))
  }

  /** Operations whose fields are in range are calls that mean them. */
  lemma CallMeans(op: Op)
    requires op.Write? ==> IsField(op.e)
    ensures Proper(Call(op)) && !Breaks(Call(op)) && Meant(Call(op)) == Some(op)
  {
    if op.Write? && op.e.Ints? {
      InRange(op.e.signed, op.e.values);
    }
  }

  lemma InRange(signed: bool, vs: seq<int>)
    requires forall i | 0 <= i < |vs| :: ValueOk(signed, vs[i])
    ensures FirstBad(vs, Low(signed), High(signed)) == |vs|
  {
  }

  lemma {:induction false} CallsRun(s: Frames, ops: seq<Op>)
    requires FramesOk(s) && forall i | 0 <= i < |ops| && ops[i].Write? :: IsField(ops[i].e)
    ensures AllProper(Calls(ops)) && AfterAll(s, Calls(ops)) == Run(s, ops)
    decreases |ops|
  {
    hide Step, Meant, Proper, Breaks;
    forall i | 0 <= i < |ops|
      ensures Proper(Calls(ops)[i])
    {
      CallMeans(ops[i]);
    }
    if ops != [] {
      CallMeans(ops[0]);
      assert Calls(ops)[1..] == Calls(ops[1..]);
      CallsRun(Step(s, ops[0]), ops[1..]);
    }
  }

  /**
   A tree written in one pass comes out as the canonical bytes of what pruning
   leaves; without a sink, exactly where the array behind its reserved prefix
   holds those bytes.
   */
  method EncodeTree(enc: Encoder, f: Forest) returns (full: bool)
    requires enc.Valid() && enc.State() == START && ForestOk(f) && Height(f) <= MAX_DEPTH
    modifies enc, enc.pool, enc.pending
    ensures enc.Valid() && enc.Steady()
    ensures !full ==> enc.State() == Frames(Canonical(f), [], 0)
    ensures full <==> !Stands(enc.Room(), Canonical(f))
  {
    OpsAreFields(f);
    OnePassIsCanonical(f);
    CallsRun(START, Ops(f));
    full := PerformAll(enc, Calls(Ops(f)));
  }

  /** An array of just the message's size is enough, and one byte less is not. */
  method EncodeInto(buffer: array<byte>, offset: nat, f: Forest) returns (full: bool, used: nat)
    requires offset <= buffer.Length && ForestOk(f) && Height(f) <= MAX_DEPTH
    modifies buffer
    ensures full <==> buffer.Length < offset + |Canonical(f)|
    ensures !full ==> used == offset + |Canonical(f)| && buffer[offset..used] == Canonical(f)
  {
    hide Canonical, Height, ForestOk;
    var enc := new Encoder(Fixed, buffer, offset, [], {buffer});
    full := EncodeTree(enc, f);
    enc.Filled();
    used := enc.cursor;
  }

  lemma {:induction false} OpsAreFields(f: Forest)
    requires ForestOk(f)
    ensures forall i | 0 <= i < |Ops(f)| && Ops(f)[i].Write? :: IsField(Ops(f)[i].e)
  {
    match f
    case Nil =>
    case Field(_, rest) => OpsAreFields(rest);
    case Nested(_, _, kids, rest) =>
      OpsAreFields(kids);
      OpsAreFields(rest);
  }

  lemma {:induction false} FeedAllSplits(cfg: Schema.Config, d: Chunks.Decode, a: seq<seq<byte>>, b: seq<seq<byte>>)
    requires Chunks.DecodeOk(cfg, d)
    ensures Chunks.FeedAll(cfg, d, a + b) == Chunks.FeedAll(cfg, Chunks.FeedAll(cfg, d, a), b)
    decreases |a|
  {
    hide Chunks.Feed, Chunks.DecodeOk;
    if a == [] {
      assert a + b == b;
    } else {
      assert (a + b)[1..] == a[1..] + b;
      FeedAllSplits(cfg, Chunks.Feed(cfg, d, a[0]), a[1..], b);
    }
  }

  lemma FeedAllLast(cfg: Schema.Config, d: Chunks.Decode, chunks: seq<seq<byte>>, last: seq<byte>)
    requires Chunks.DecodeOk(cfg, d)
    ensures Chunks.FeedAll(cfg, d, chunks + [last]) == Chunks.Feed(cfg, Chunks.FeedAll(cfg, d, chunks), last)
  {
    hide Chunks.Feed, Chunks.DecodeOk;
    FeedAllSplits(cfg, d, chunks, [last]);
    assert [last][1..] == [];
  }

  lemma {:induction false} DeadStays(cfg: Schema.Config, d: Chunks.Decode, chunks: seq<seq<byte>>)
    requires d.Dead?
    ensures Chunks.FeedAll(cfg, d, chunks) == d
    decreases |chunks|
  {
    if chunks != [] {
      DeadStays(cfg, d, chunks[1..]);
    }
  }

  /** A decode holds no more than it was fed. */
  function Load(d: Chunks.Decode): nat {
    if d.Live? then |d.held| else 0
  }

  lemma FeedLoads(cfg: Schema.Config, d: Chunks.Decode, chunk: seq<byte>)
    requires Chunks.DecodeOk(cfg, d)
    ensures Load(Chunks.Feed(cfg, d, chunk)) <= Load(d) + |chunk|
  {
    hide Machine.Run, Machine.Ok;
  }

  lemma {:induction false} FlattenSplits(a: seq<seq<byte>>, b: seq<seq<byte>>)
    ensures Chunks.Flatten(a + b) == Chunks.Flatten(a) + Chunks.Flatten(b)
    decreases |a|
  {
    if a == [] {
      assert a + b == b;
    } else {
      assert (a + b)[1..] == a[1..] + b;
      FlattenSplits(a[1..], b);
    }
  }

  lemma OneChunk(chunk: seq<byte>)
    ensures Chunks.Flatten([chunk]) == chunk
  {
    assert chunk + Chunks.Flatten([]) == chunk;
  }

  /** The first `i` chunks are in, and the decoder holds no more than it was given. */
  ghost predicate Fed(dec: Decoding.Decoder, was: Chunks.Decode, chunks: seq<seq<byte>>, i: nat)
    requires Chunks.DecodeOk(dec.cfg, was) && i <= |chunks|
    reads dec, dec.rbuf, dec.words
  {
    && dec.Ready() && dec.D() == Chunks.FeedAll(dec.cfg, was, chunks[..i])
    && Load(dec.D()) <= Load(was) + |Chunks.Flatten(chunks[..i])|
  }

  lemma Prefixes(cfg: Schema.Config, was: Chunks.Decode, chunks: seq<seq<byte>>, i: nat)
    requires Chunks.DecodeOk(cfg, was) && i < |chunks|
    ensures
      Chunks.FeedAll(cfg, was, chunks[..i + 1]) == Chunks.Feed(cfg, Chunks.FeedAll(cfg, was, chunks[..i]), chunks[i])
    ensures |Chunks.Flatten(chunks[..i + 1])| == |Chunks.Flatten(chunks[..i])| + |chunks[i]|
    ensures |Chunks.Flatten(chunks[..i + 1])| <= |Chunks.Flatten(chunks)|
    ensures Chunks.FeedAll(cfg, was, chunks) ==
            Chunks.FeedAll(cfg, Chunks.FeedAll(cfg, was, chunks[..i + 1]), chunks[i + 1..])
  {
    hide Chunks.Feed, Chunks.DecodeOk;
    assert chunks[..i + 1] == chunks[..i] + [chunks[i]] && chunks == chunks[..i + 1] + chunks[i + 1..];
    FeedAllLast(cfg, was, chunks[..i], chunks[i]);
    FlattenSplits(chunks[..i], [chunks[i]]);
    FlattenSplits(chunks[..i + 1], chunks[i + 1..]);
    FeedAllSplits(cfg, was, chunks[..i + 1], chunks[i + 1..]);
    OneChunk(chunks[i]);
  }

  /** One chunk of several; true to stop. */
  method FeedOne(dec: Decoding.Decoder, ghost was: Chunks.Decode, chunks: seq<seq<byte>>, i: nat)
    returns (refused: bool)
    requires Chunks.DecodeOk(dec.cfg, was) && i < |chunks| && Fed(dec, was, chunks, i)
    modifies dec, dec.words, dec.rbuf
    ensures !refused ==> Fed(dec, was, chunks, i + 1)
    ensures refused ==>
      Load(was) + |Chunks.Flatten(chunks)| > dec.rbuf.Length ||
      Chunks.StatusOf(Chunks.FeedAll(dec.cfg, was, chunks)) == Chunks.Ended(Machine.Refused)
  {
    hide Chunks.Feed, Chunks.DecodeOk, Chunks.FeedAll, Chunks.Flatten;
    Prefixes(dec.cfg, was, chunks, i);
    FeedLoads(dec.cfg, dec.D(), chunks[i]);
    var r := dec.Feed(chunks[i]);
    if r.Fed? && r.status == Chunks.Ended(Machine.Refused) {
      DeadStays(dec.cfg, Chunks.FeedAll(dec.cfg, was, chunks[..i + 1]), chunks[i + 1..]);
    }
    return !r.Fed? || r.status == Chunks.Ended(Machine.Refused);
  }

  /**
   Feeds a message in chunks.  The decoder is left as the machine is, fed the
   same chunks; and where no array option lies over its own which slot, as one
   feed of all the bytes would leave it.  It can be refused on the way only
   where storage of the caller's is too small: a buffer in an `objects` slot or
   of the handler's, or a reassembly buffer smaller than all the bytes together.
   */
  method FeedChunks(dec: Decoding.Decoder, chunks: seq<seq<byte>>) returns (refused: bool)
    requires dec.Ready() && chunks != []
    modifies dec, dec.words, dec.rbuf
    ensures !refused ==> dec.Ready()
    ensures !refused ==> dec.D() == Chunks.FeedAll(dec.cfg, old(dec.D()), chunks)
    ensures !refused && Chunks.Unlaid(dec.cfg) ==>
      dec.D() == Chunks.Feed(dec.cfg, old(dec.D()), Chunks.Flatten(chunks))
    ensures refused ==>
      Load(old(dec.D())) + |Chunks.Flatten(chunks)| > dec.rbuf.Length ||
      Chunks.StatusOf(Chunks.FeedAll(dec.cfg, old(dec.D()), chunks)) == Chunks.Ended(Machine.Refused)
  {
    hide Chunks.Feed, Chunks.DecodeOk, Chunks.Flatten, Fed;
    ReadyIsOk(dec);
    ghost var was := dec.D();
    assert chunks[..|chunks|] == chunks;
    hide Chunks.Unlaid;
    if Chunks.Unlaid(dec.cfg) {
      Chunks.ChunkingInvisible(dec.cfg, was, chunks);
    }
    FedNone(dec, was, chunks);
    for i := 0 to |chunks|
      invariant Fed(dec, was, chunks, i)
    {
      refused := FeedOne(dec, was, chunks, i);
      if refused {
        return;
      }
    }
    FedIsReady(dec, was, chunks, |chunks|);
    return false;
  }

  lemma FedNone(dec: Decoding.Decoder, was: Chunks.Decode, chunks: seq<seq<byte>>)
    requires Chunks.DecodeOk(dec.cfg, was) && dec.Ready() && dec.D() == was
    ensures Fed(dec, was, chunks, 0)
  {
    assert chunks[..0] == [];
  }

  lemma FedIsReady(dec: Decoding.Decoder, was: Chunks.Decode, chunks: seq<seq<byte>>, i: nat)
    requires Chunks.DecodeOk(dec.cfg, was) && i <= |chunks| && Fed(dec, was, chunks, i)
    ensures dec.Ready() && dec.D() == Chunks.FeedAll(dec.cfg, was, chunks[..i])
  {
  }

  lemma ReadyIsOk(dec: Decoding.Decoder)
    requires dec.Ready()
    ensures Chunks.DecodeOk(dec.cfg, dec.D())
  {
  }

  // ----- one class to the other -----------------------------------------------------

  /** A message in pieces of any sizes, the last piece being what is left. */
  function Cut(s: seq<byte>, sizes: seq<nat>): (chunks: seq<seq<byte>>)
    ensures chunks != [] && Chunks.Flatten(chunks) == s
    decreases |sizes|
  {
    if sizes == [] then
      assert [s][1..] == [] && s + [] == s;
      [s]
    else
      var k := if sizes[0] < |s| then sizes[0] else |s|;
      var rest := Cut(s[k..], sizes[1..]);
      assert ([s[..k]] + rest)[1..] == rest && s[..k] + s[k..] == s;
      [s[..k]] + rest
  }

  /**
   The two classes against each other.  A tree written call by call through an
   encoder of any shape, over any array and any sink, and fed to a decoder in
   pieces of any sizes, arrives COMPLETE as the events of the pruned tree.  A
   lone array is enough if it holds the message, and so is a reassembly buffer.
   */
  method Transmit(enc: Encoder, dec: Decoding.Decoder, f: Forest, sizes: seq<nat>) returns (full: bool, refused: bool)
    requires enc.Valid() && enc.State() == START
    requires ForestOk(f) && Height(f) <= MAX_DEPTH
    requires dec.Ready() && RoundTrip.Listens(dec.cfg)
    requires dec.D() == RoundTrip.Fresh(dec.cfg, dec.words[..], dec.objects)
    requires dec.rbuf !in enc.pool
    modifies enc, enc.pool, enc.pending, dec, dec.words, dec.rbuf
    ensures full <==> !Stands(enc.Room(), Canonical(f))
    ensures !full && !refused ==> dec.Ready()
    ensures !full && !refused ==>
      Chunks.StatusOf(dec.D()).Complete? && RoundTrip.Heard(Chunks.Log(dec.D())) == Events(Prune(f))
    ensures refused ==> |Canonical(f)| > dec.rbuf.Length
  {
    hide Chunks.Feed, Chunks.DecodeOk, RoundTrip.Heard, RoundTrip.Listens, Canonical, Encoder.Plain, Encoder.Room;
    hide Height, ForestOk, Events, Prune, Stands, RoundTrip.Fresh, Chunks.StatusOf, Chunks.Log, Framing.FramesOk;
    refused := false;
    full := EncodeTree(enc, f);
    if !full {
      refused := Receive(dec, f, enc.Out(), sizes);
    }
  }

  /** What the in-memory encoder returns for a tree. */
  method EncodeValue(enc: Encoder, f: Forest) returns (s: seq<byte>)
    requires enc.Valid() && enc.State() == START && enc.shape.InMemory? && enc.Plain()
    requires ForestOk(f) && Height(f) <= MAX_DEPTH
    modifies enc, enc.pool, enc.pending
    ensures enc.Valid() && s == Canonical(f)
  {
    hide Canonical, Encoder.Plain, Height, ForestOk;
    var full := EncodeTree(enc, f);
    s := enc.GetValue();
  }

  /** The bytes of a tree, heard. */
  method Receive(dec: Decoding.Decoder, f: Forest, s: seq<byte>, sizes: seq<nat>) returns (refused: bool)
    requires ForestOk(f) && Height(f) <= MAX_DEPTH && s == Canonical(f)
    requires dec.Ready() && RoundTrip.Listens(dec.cfg)
    requires dec.D() == RoundTrip.Fresh(dec.cfg, dec.words[..], dec.objects)
    modifies dec, dec.words, dec.rbuf
    ensures !refused ==> dec.Ready()
    ensures !refused ==>
      Chunks.StatusOf(dec.D()).Complete? && RoundTrip.Heard(Chunks.Log(dec.D())) == Events(Prune(f))
    ensures refused ==> |Canonical(f)| > dec.rbuf.Length
  {
    RoundTrip.NothingLaid(dec.cfg);
    hide Chunks.Feed, Chunks.DecodeOk, Chunks.Unlaid, RoundTrip.Heard, RoundTrip.Listens, Canonical;
    ghost var words, objects := dec.words[..], dec.objects;
    OnePassIsCanonical(f);
    var chunks := Cut(s, sizes);
    RoundTrip.RoundTrip(dec.cfg, words, objects, f, chunks);
    refused := FeedChunks(dec, chunks);
  }
}

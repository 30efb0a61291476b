/**
 The streaming encoder: a fixed output array drained through a sink that may
 copy, or take the array and install another one.  Every writer is proved to
 perform one step of the framing machine on the bytes it has put out so far,
 whatever the array size and whatever the sink does.
 */
module Encoding {
  import opened Wire
  import opened Message
  import opened Framing

  /** What the sink does with a flushed array: copy it, or take it and install a replacement. */
  datatype Answer = Copied | Took(buffer: array<byte>, offset: nat)

  /** The three construction shapes: no sink, a sink (callback or writer), the in-memory result. */
  datatype Shape = Fixed | Sunk | InMemory

  /** How a write ends: done, refused as an invalid argument, or out of buffer. */
  datatype Outcome = Done | Argument | Full

  /** One flushed run, the first `reserved` bytes of which were left for a lower layer. */
  datatype Piece = Piece(bytes: seq<byte>, reserved: nat)

  predicate PiecesOk(ps: seq<Piece>) {
    forall i | 0 <= i < |ps| :: ps[i].reserved <= |ps[i].bytes|
  }

  /** The flushed runs without the reserved prefix of each installation. */
  function Payload(ps: seq<Piece>): seq<byte>
    requires PiecesOk(ps)
  {
    if ps == [] then []
    else
      var last := ps[|ps| - 1];
      Payload(ps[..|ps| - 1]) + last.bytes[last.reserved..]
  }

  /** The flushed runs as they were handed over, prefixes and all. */
  ghost function Bytes(ps: seq<Piece>): seq<byte> {
    if ps == [] then [] else Bytes(ps[..|ps| - 1]) + ps[|ps| - 1].bytes
  }

  ghost predicate Unreserved(ps: seq<Piece>) {
    forall i | 0 <= i < |ps| :: ps[i].reserved == 0
  }

  lemma {:induction false} UnreservedBytes(ps: seq<Piece>)
    requires PiecesOk(ps) && Unreserved(ps)
    ensures Bytes(ps) == Payload(ps)
    decreases |ps|
  {
    if ps != [] {
      var last := ps[|ps| - 1];
      UnreservedBytes(ps[..|ps| - 1]);
      assert last.bytes[0..] == last.bytes;
    }
  }

  function Join(chunks: seq<seq<byte>>): seq<byte> {
    if chunks == [] then [] else Join(chunks[..|chunks| - 1]) + chunks[|chunks| - 1]
  }

  lemma PayloadGrows(ps: seq<Piece>, p: Piece)
    requires PiecesOk(ps) && p.reserved <= |p.bytes|
    ensures PiecesOk(ps + [p]) && Payload(ps + [p]) == Payload(ps) + p.bytes[p.reserved..]
    ensures Bytes(ps + [p]) == Bytes(ps) + p.bytes
  {
    assert (ps + [p])[..|ps|] == ps;
  }

  lemma JoinGrows(chunks: seq<seq<byte>>, c: seq<byte>)
    ensures Join(chunks + [c]) == Join(chunks) + c
  {
    assert (chunks + [c])[..|chunks|] == chunks;
  }

  lemma VarintStep(v: nat)
    requires v >= 0x80
    ensures Varint(v) == [v % 0x80 + 0x80] + Varint(v / 0x80)
  {
  }

  lemma TwoGroups(v: nat)
    requires v >= 0x4000
    ensures Varint(v) == [v % 0x80 + 0x80, v / 0x80 % 0x80 + 0x80] + Varint(v / 0x4000)
  {
    VarintStep(v);
    assert v / 0x80 >= 0x80 && v / 0x80 / 0x80 == v / 0x4000;
    VarintStep(v / 0x80);
  }

  /** Moving groups from what is left of a varint to what is written. */
  lemma Moves(pre: seq<byte>, groups: seq<byte>, v: nat, rest: nat, whole: seq<byte>)
    requires pre + Varint(v) == whole && Varint(v) == groups + Varint(rest)
    ensures (pre + groups) + Varint(rest) == whole
  {
  }

  /** The inlined codec: by width, one and two bytes in a straight line. */
  method PutInPlace(buf: array<byte>, at: nat, value: nat) returns (end: nat)
    requires value < TWO64 && at + VARINT_MAX <= buf.Length
    modifies buf
    ensures at <= end <= buf.Length
    ensures buf[..end] == old(buf[..at]) + Varint(value)
  {
    if value < 0x80 {
      end := Append(buf, at, value);
    } else if value < 0x4000 {
      VarintStep(value);
      end := Append(buf, at, value % 0x80 + 0x80);
      end := Append(buf, end, value / 0x80);
    } else {
      ReadInvertsVarint(value, []);
      end := PutLong(buf, at, value);
    }
  }

  /** Anything longer: two 7-bit groups a turn, both of which are certain to continue. */
  method PutLong(buf: array<byte>, at: nat, value: nat) returns (end: nat)
    requires at + |Varint(value)| <= buf.Length
    modifies buf
    ensures at <= end <= buf.Length
    ensures buf[..end] == old(buf[..at]) + Varint(value)
  {
    ghost var whole := buf[..at] + Varint(value);
    var v := value;
    end := at;
    while v >= 0x4000
      invariant at <= end && end + |Varint(v)| <= buf.Length
      invariant buf[..end] + Varint(v) == whole
      decreases v
    {
      ghost var pre, groups := buf[..end], [v % 0x80 + 0x80, v / 0x80 % 0x80 + 0x80];
      TwoGroups(v);
      Moves(pre, groups, v, v / 0x4000, whole);
      end := Append(buf, end, v % 0x80 + 0x80);
      end := Append(buf, end, v / 0x80 % 0x80 + 0x80);
      assert buf[..end] == pre + groups;
      v := v / 0x4000;
    }
    if v >= 0x80 {
      VarintStep(v);
      Moves(buf[..end], [v % 0x80 + 0x80], v, v / 0x80, whole);
      end := Append(buf, end, v % 0x80 + 0x80);
      v := v / 0x80;
    }
    end := Append(buf, end, v);
  }

  method Append(buf: array<byte>, at: nat, b: byte) returns (end: nat)
    requires at < buf.Length
    modifies buf
    ensures end == at + 1 && buf[..end] == old(buf[..at]) + [b]
  {
    buf[at] := b;
    end := at + 1;
  }

  /**
   Where a planned run of bytes got to: all of it, where there is room; or the
   part of it that fills the room up; or nowhere.  `None` is room without end.
   */
  ghost predicate Progress(r: Outcome, room: Option<nat>, was: seq<byte>, now: seq<byte>, plan: seq<byte>) {
    match r
    case Done => now == was + plan && (room.Some? ==> |was| + |plan| <= room.value)
    case Full => was <= now <= was + plan && room.Some? && |now| == room.value < |was| + |plan|
    case Argument => now == was
  }

  lemma Then(r: Outcome, room: Option<nat>, was: seq<byte>, mid: seq<byte>, now: seq<byte>, a: seq<byte>, b: seq<byte>)
    requires Progress(Done, room, was, mid, a) && Progress(r, room, mid, now, b) && !r.Argument?
    ensures Progress(r, room, was, now, a + b)
  {
    assert was + (a + b) == mid + b;
    assert was <= mid;
    if r.Full? {
      assert now[..|was|] == mid[..|was|];
    }
  }

  lemma Stopped(room: Option<nat>, was: seq<byte>, now: seq<byte>, a: seq<byte>, b: seq<byte>)
    requires Progress(Full, room, was, now, a)
    ensures Progress(Full, room, was, now, a + b)
  {
    assert was + (a + b) == (was + a) + b;
  }

  /**
   What a field write made of the state: it put out the held-back run and the
   field, or as much of them as there was room for.
   */
  ghost predicate Wrote(r: Outcome, room: Option<nat>, s: Frames, t: Frames, e: Event) {
    && IsField(e)
    && Progress(r, room, s.out, t.out, Headers(s.pending) + Emit(e))
    && t.pending == [] && t.depth == s.depth
  }

  /** A finished field write is one step of the framing machine. */
  lemma WroteIsStep(room: Option<nat>, s: Frames, t: Frames, e: Event)
    requires FramesOk(s) && Wrote(Done, room, s, t, e)
    ensures t == Step(s, Write(e))
  {
    hide Headers, Emit;
    assert s.out + (Headers(s.pending) + Emit(e)) == s.out + Headers(s.pending) + Emit(e);
  }

  lemma Regroup2(a: seq<byte>, b: seq<byte>, c: seq<byte>)
    ensures a + (b + c) == (a + b) + c
  {
  }

  lemma Regroup3(a: seq<byte>, b: seq<byte>, c: seq<byte>, d: seq<byte>)
    ensures a + (b + c + d) == ((a + b) + c) + d
  {
  }

  lemma Regroup4(a: seq<byte>, b: seq<byte>, c: seq<byte>, d: seq<byte>, e: seq<byte>)
    ensures a + (b + c + d + e) == (((a + b) + c) + d) + e
  {
    Regroup3(a, b, c, d);
    Regroup2(a, b + c + d, e);
  }

  /** Index of the first element outside the declared width. */
  function FirstBad(values: seq<int>, lo: int, hi: int): (k: nat)
    ensures k <= |values|
    ensures forall i | 0 <= i < k :: lo <= values[i] <= hi
    ensures k < |values| ==> !(lo <= values[k] <= hi)
  {
    if values == [] || !(lo <= values[0] <= hi) then 0 else FirstBad(values[1..], lo, hi) + 1
  }

  /** A count within the format's ceiling and the caller's bound; a negative bound checks none. */
  predicate CountOk(count: nat, cap: int) {
    count <= ARRAY_MAX && (cap >= 0 ==> count <= cap)
  }

  /** A declared integer width, which never exceeds 64 bits. */
  predicate WidthOk(signed: bool, lo: int, hi: int) {
    if signed then -TWO63 <= lo && hi < TWO63 else lo == 0 && hi < TWO64
  }

  lemma {:induction false} ElementsAppend(signed: bool, vs: seq<int>, v: int)
    requires forall i | 0 <= i < |vs| :: ValueOk(signed, vs[i])
    requires ValueOk(signed, v)
    ensures Elements(signed, vs + [v]) == Elements(signed, vs) + Varint(Raw(signed, v))
    decreases |vs|
  {
    if vs == [] {
      assert vs + [v] == [v] && [v][1..] == [];
    } else {
      assert (vs + [v])[1..] == vs[1..] + [v];
      ElementsAppend(signed, vs[1..], v);
    }
  }

  class Encoder {
    const shape: Shape
    var fixed: array<byte>
    var cursor: nat
    var result: seq<seq<byte>>
    const pending: array<nat>
    var npending: nat
    var depth: nat

    // What the sink will answer, flush by flush; it copies once the list is used up.
    var script: seq<Answer>

    // Every array this encoder writes into, now or after an answer of the sink.
    ghost const pool: set<array<byte>>

    // The receiving side's record, which no writer reads: the runs handed over, and the
    // reserved prefix of this installation that no flush has carried off yet.
    var handed: seq<Piece>
    var base: nat

    ghost predicate Valid()
      reads this, pending
    {
      && fixed in pool
      && base <= cursor <= fixed.Length
      && (forall b | b in pool :: b as object != pending)
      && (!shape.Fixed? ==> fixed.Length > 0)
      && pending.Length == MAX_DEPTH
      && npending <= depth <= MAX_DEPTH
      && (forall i | 0 <= i < npending :: pending[i] <= ID_MAX)
      && PiecesOk(handed)
      && (forall i | 0 <= i < |script| && script[i].Took? ::
            script[i].buffer in pool && script[i].offset < script[i].buffer.Length)
      && (!shape.Sunk? ==> script == [])
      && (shape.InMemory? ==> Join(result) == Bytes(handed))
      && (shape.Fixed? ==> handed == [])
    }

    /** How many bytes there is room for: without a sink, what the array holds behind its reserved prefix. */
    ghost function Room(): Option<nat>
      reads this`fixed, this`base
    {
      if shape.Fixed? && base <= fixed.Length then Some(fixed.Length - base) else None
    }

    /** No installation so far has reserved a prefix. */
    ghost predicate Plain()
      reads this`base, this`handed
    {
      base == 0 && Unreserved(handed)
    }

    /** Writing leaves the room there is as it is, and reserves nothing in a retained array. */
    twostate predicate Steady()
      reads this`fixed, this`base, this`handed
    {
      Room() == old(Room()) && (shape.InMemory? && old(Plain()) ==> Plain())
    }

    /** Everything put out so far: the flushed payload and the tail still in the array. */
    function Out(): seq<byte>
      requires Valid()
      reads this, pending, fixed
    {
      Payload(handed) + fixed[base..cursor]
    }

    ghost function State(): (s: Frames)
      requires Valid()
      reads this, pending, fixed
      ensures FramesOk(s)
    {
      Frames(Out(), pending[..npending], depth)
    }

    /** `Encoder()`, `Encoder(writer)` and `over_buffer`, over the array that shape installs. */
    constructor (shape: Shape, buffer: array<byte>, offset: nat, script: seq<Answer>, ghost pool: set<array<byte>>)
      requires buffer in pool && offset <= buffer.Length
      requires !shape.Fixed? ==> offset < buffer.Length
      requires shape.InMemory? ==> offset == 0
      requires !shape.Sunk? ==> script == []
      requires forall i | 0 <= i < |script| && script[i].Took? ::
        script[i].buffer in pool && script[i].offset < script[i].buffer.Length
      ensures Valid() && fresh(pending)
      ensures this.shape == shape && this.pool == pool && this.script == script
      ensures State() == START && fixed == buffer && base == offset && (offset == 0 ==> Plain())
    {
      this.shape, this.pool, this.script := shape, pool, script;
      fixed, cursor, base := buffer, offset, offset;
      result, handed := [], [];
      pending := new nat[MAX_DEPTH](_ => 0);
      npending, depth := 0, 0;
      new;
      assert pending[..0] == [];
    }

    /** Installs an array mid-stream.  Bytes not flushed yet are lost, which is why only a sink may call it there. */
    method BufferSet(buffer: array<byte>, offset: nat) returns (ok: bool)
      requires Valid() && buffer in pool
      modifies this`fixed, this`cursor, this`base
      ensures Valid()
      ensures ok <==> offset <= buffer.Length && (shape.Fixed? || buffer.Length - offset >= 1)
      ensures ok ==> fixed == buffer && cursor == base == offset && Out() == Payload(handed)
      ensures !ok ==> fixed == old(fixed) && cursor == old(cursor) && base == old(base)
    {
      ok := offset <= buffer.Length && (shape.Fixed? || buffer.Length - offset >= 1);
      if ok {
        fixed, cursor, base := buffer, offset, offset;
      }
    }

    /** Hands the array over.  Without a sink that is the end of the line. */
    method Drain() returns (ok: bool)
      requires Valid()
      modifies this`fixed, this`cursor, this`base, this`handed, this`result, this`script
      ensures Valid() && Out() == old(Out())
      ensures ok <==> !shape.Fixed?
      ensures ok ==> cursor < fixed.Length && cursor == base
      ensures shape.InMemory? ==> fixed == old(fixed) && cursor == 0
      ensures !ok ==> cursor == old(cursor) && fixed == old(fixed)
      ensures Steady()
    {
      if shape.Fixed? {
        return false;
      }
      var piece := Piece(fixed[..cursor], base);
      PayloadGrows(handed, piece);
      assert piece.bytes[base..] == fixed[base..cursor];
      if shape.InMemory? {
        Keep(piece);
      } else {
        Answered(piece);
      }
      return true;
    }

    /** The retained copy of what the array held. */
    method Keep(piece: Piece)
      requires Valid() && shape.InMemory? && piece == Piece(fixed[..cursor], base)
      modifies this`cursor, this`base, this`handed, this`result
      ensures Valid() && cursor == base == 0 && handed == old(handed) + [piece] && Steady()
    {
      PayloadGrows(handed, piece);
      JoinGrows(result, fixed[..cursor]);
      result, handed := result + [fixed[..cursor]], handed + [piece];
      cursor, base := 0, 0;
    }

    /** The sink's answer: it copied, or it took the array and installed another. */
    method Answered(piece: Piece)
      requires Valid() && shape.Sunk? && piece == Piece(fixed[..cursor], base)
      modifies this`fixed, this`cursor, this`base, this`handed, this`script
      ensures Valid() && cursor == base < fixed.Length && handed == old(handed) + [piece]
    {
      PayloadGrows(handed, piece);
      handed := handed + [piece];
      var answer := if script == [] then Copied else script[0];
      if script != [] {
        script := script[1..];
      }
      match answer {
        case Copied => cursor, base := 0, 0;
        case Took(buffer, offset) =>
          var installed := BufferSet(buffer, offset);
      }
    }

    /** Writes a divisible run, splitting it across as many flushes as it takes. */
    method Put(data: seq<byte>) returns (r: Outcome)
      requires Valid()
      modifies this, pool
      ensures Valid() && npending == old(npending) && depth == old(depth)
      ensures !r.Argument? && Progress(r, Room(), old(Out()), Out(), data)
      ensures Steady()
    {
      var n := |data|;
      if shape.InMemory? && n >= fixed.Length {
        HandOver(data);
        return Done;
      }
      var pos := 0;
      while pos < n
        invariant Valid() && npending == old(npending) && depth == old(depth)
        invariant 0 <= pos <= n
        invariant Out() == old(Out()) + data[..pos] && Steady()
      {
        var taken := Fill(data[pos..]);
        if taken == 0 {
          Filled();
          assert old(Out()) + data == Out() + data[pos..];
          return Full;
        }
        assert data[..pos + taken] == data[..pos] + data[pos..][..taken];
        pos := pos + taken;
      }
      assert data[..n] == data;
      return Done;
    }

    /** A run at least as long as the whole array becomes a chunk of the result as it is. */
    method HandOver(data: seq<byte>)
      requires Valid() && shape.InMemory?
      modifies this`fixed, this`cursor, this`base, this`handed, this`result, this`script
      ensures Valid() && Out() == old(Out()) + data && Steady()
    {
      if cursor > 0 {
        var drained := Drain();
      }
      PayloadGrows(handed, Piece(data, 0));
      JoinGrows(result, data);
      handed, result := handed + [Piece(data, 0)], result + [data];
    }

    /** Takes as much as fits, after draining a full array; 0 means there is no sink to drain to. */
    method Fill(data: seq<byte>) returns (taken: nat)
      requires Valid() && data != []
      modifies this, pool
      ensures Valid() && npending == old(npending) && depth == old(depth)
      ensures taken <= |data| && Out() == old(Out()) + data[..taken]
      ensures taken == 0 ==> shape.Fixed? && cursor == fixed.Length
      ensures Steady()
    {
      if cursor >= fixed.Length {
        var drained := Drain();
        if !drained {
          return 0;
        }
      }
      taken := if fixed.Length - cursor < |data| then fixed.Length - cursor else |data|;
      Copy(data[..taken]);
    }

    /** A lone array holds all that has been put out, and no more than it has room for. */
    lemma Filled()
      requires Valid()
      ensures shape.Fixed? ==> |Out()| == cursor - base && Room() == Some(fixed.Length - base)
      ensures Room().Some? ==> |Out()| <= Room().value
    {
    }

    /** One slice assignment into the array. */
    method Copy(data: seq<byte>)
      requires Valid() && cursor + |data| <= fixed.Length
      modifies this`cursor, fixed
      ensures Valid() && Out() == old(Out()) + data
      ensures cursor == old(cursor) + |data| && Steady()
    {
      forall i | 0 <= i < |data| {
        fixed[cursor + i] := data[i];
      }
      cursor := cursor + |data|;
      assert fixed[base..cursor] == old(fixed[base..cursor]) + data;
    }

    // ----- varints and headers ----------------------------------------------

    /** In place where a whole varint fits, through `Put` on the last bytes of the array. */
    method EmitVarint(value: nat) returns (r: Outcome)
      requires Valid() && value < TWO64
      modifies this, pool
      ensures Valid() && npending == old(npending) && depth == old(depth)
      ensures !r.Argument? && Progress(r, Room(), old(Out()), Out(), Varint(value))
      ensures Steady()
    {
      if cursor + VARINT_MAX <= fixed.Length {
        ghost var tail := fixed[..cursor];
        var end := PutInPlace(fixed, cursor, value);
        assert fixed[base..end] == tail[base..] + Varint(value);
        cursor := end;
        r := Done;
      } else {
        var bytes := EncodeVarint(value);
        r := Put(bytes);
      }
    }

    /** Puts the held-back run out, outermost header first. */
    method CommitPending() returns (r: Outcome)
      requires Valid()
      modifies this, pool
      ensures Valid() && npending == 0 && depth == old(depth)
      ensures !r.Argument? && Progress(r, Room(), old(Out()), Out(), Headers(old(State()).pending))
      ensures Steady()
    {
      Filled();
      hide Progress, Room, Plain, Headers, Varint, PiecesOk;
      ghost var was, run := Out(), State().pending;
      NoHeaders(Room(), was, run);
      var n := npending;
      npending := 0;
      for i := 0 to n
        invariant Valid() && npending == 0 && depth == old(depth)
        invariant pending[..n] == run
        invariant Progress(Done, Room(), was, Out(), Headers(run[..i])) && Steady()
      {
        ghost var mid := Out();
        assert pending[i] == run[i];
        r := EmitVarint(pending[i] * 8 + SEQUENCE_START);
        RunGoesOn(r, Room(), was, mid, Out(), run, i);
        if r.Full? {
          return;
        }
      }
      assert run[..n] == run;
      return Done;
    }

    /** The choke point of every field: a field is content, so what is held back goes out first. */
    method WriteHeader(id: int, wt: nat) returns (r: Outcome)
      requires Valid() && wt < 8
      modifies this, pool
      ensures Valid() && depth == old(depth)
      ensures r.Argument? <==> !(0 <= id <= ID_MAX)
      ensures r.Argument? ==> State() == old(State())
      ensures !r.Argument? ==> Progress(r, Room(), old(Out()), Out(), Headers(old(State()).pending) + Header(id, wt))
      ensures !r.Argument? ==> npending == 0
      ensures Steady()
    {
      if id < 0 || id > ID_MAX {
        return Argument;
      }
      ghost var was, held := Out(), Headers(State().pending);
      r := Done;
      if npending > 0 {
        r := CommitPending();
      }
      if r.Full? {
        Stopped(Room(), was, Out(), held, Header(id, wt));
        return;
      }
      ghost var mid := Out();
      r := EmitVarint(id * 8 + wt);
      Then(r, Room(), was, mid, Out(), held, Header(id, wt));
    }

    // ----- fields -------------------------------------------------------------

    /** `write_unsigned`, `write_signed` and their width-typed forms. */
    method WriteInt(id: int, signed: bool, lo: int, hi: int, value: int) returns (r: Outcome)
      requires Valid() && WidthOk(signed, lo, hi)
      modifies this, pool
      ensures Valid()
      ensures r.Argument? <==> !(lo <= value <= hi && 0 <= id <= ID_MAX)
      ensures r.Argument? ==> State() == old(State())
      ensures !r.Argument? ==> Wrote(r, Room(), old(State()), State(), Int(id, signed, value))
      ensures Steady()
    {
      if value < lo || value > hi {
        return Argument;
      }
      var wt := if signed then SIGNED else UNSIGNED;
      var raw := if signed then ZigzagEncode(value) else value;
      ghost var was, held := Out(), Headers(State().pending);
      r := WriteHeader(id, wt);
      if r.Argument? {
        return;
      }
      r := WriteWord(r, was, held + Header(id, wt), raw);
      Regroup2(held, Header(id, wt), Varint(raw));
    }

    /** A word behind what has been put out, unless that already ran out of array. */
    method WriteWord(before: Outcome, ghost was: seq<byte>, ghost head: seq<byte>, word: nat) returns (r: Outcome)
      requires Valid() && word < TWO64 && npending == 0
      requires !before.Argument? && Progress(before, Room(), was, Out(), head)
      modifies this, pool
      ensures Valid() && npending == 0 && depth == old(depth)
      ensures !r.Argument? && Progress(r, Room(), was, Out(), head + Varint(word))
      ensures Steady()
    {
      if before.Full? {
        Stopped(Room(), was, Out(), head, Varint(word));
        return Full;
      }
      ghost var mid := Out();
      r := EmitVarint(word);
      Then(r, Room(), was, mid, Out(), head, Varint(word));
    }

    /** A payload behind what has been put out, unless that already ran out of array. */
    method WritePayload(before: Outcome, ghost was: seq<byte>, ghost head: seq<byte>, data: seq<byte>)
      returns (r: Outcome)
      requires Valid() && npending == 0
      requires !before.Argument? && Progress(before, Room(), was, Out(), head)
      modifies this, pool
      ensures Valid() && npending == 0 && depth == old(depth)
      ensures !r.Argument? && Progress(r, Room(), was, Out(), head + data)
      ensures Steady()
    {
      if before.Full? {
        Stopped(Room(), was, Out(), head, data);
        return Full;
      }
      ghost var mid := Out();
      r := Put(data);
      Then(r, Room(), was, mid, Out(), head, data);
    }

    /** Strings, blobs and single floats: the length is settled before the first byte goes out. */
    method WriteFixlen(id: int, st: nat, data: seq<byte>) returns (r: Outcome)
      requires Valid() && st <= BLOB && (|data| <= FIXLEN_MAX ==> FixlenOk(st, data))
      modifies this, pool
      ensures Valid()
      ensures r.Argument? <==> !(|data| <= FIXLEN_MAX && 0 <= id <= ID_MAX)
      ensures r.Argument? ==> State() == old(State())
      ensures !r.Argument? ==> Wrote(r, Room(), old(State()), State(), Fixlen(id, st, data))
      ensures Steady()
    {
      hide Progress, Room, Plain, Headers, Header, Varint, PiecesOk;
      if |data| > FIXLEN_MAX {
        return Argument;
      }
      ghost var was, held := Out(), Headers(State().pending);
      r := WriteHeader(id, FIXLEN);
      if r.Argument? {
        return;
      }
      ghost var head, word := held + Header(id, FIXLEN), Varint(|data| * 8 + st);
      r := WriteWord(r, was, head, |data| * 8 + st);
      r := WritePayload(r, was, head + word, data);
      Regroup3(held, Header(id, FIXLEN), word, data);
    }

    /** Float arrays, from their packed payload: the fixlen word is there even when the array is empty. */
    method WriteFloats(id: int, st: nat, data: seq<byte>, cap: int) returns (r: Outcome)
      requires Valid() && st <= FP64 && Whole(st, data)
      modifies this, pool
      ensures Valid()
      ensures r.Argument? <==> !(CountOk(FloatCount(st, data), cap) && 0 <= id <= ID_MAX)
      ensures r.Argument? ==> State() == old(State())
      ensures !r.Argument? ==> Wrote(r, Room(), old(State()), State(), Floats(id, st, data))
      ensures Steady()
    {
      hide Progress, Room, Plain, Headers, Header, Varint, PiecesOk, FloatCount;
      var count := FloatCount(st, data);
      if !CountOk(count, cap) {
        return Argument;
      }
      ghost var was, held := Out(), Headers(State().pending);
      r := WriteHeader(id, ARRAY_FIXLEN);
      if r.Argument? {
        return;
      }
      ghost var head, word := held + Header(id, ARRAY_FIXLEN), Varint(count);
      r := WriteWord(r, was, head, count);
      r := WriteWord(r, was, head + word, Width(st) * 8 + st);
      r := WritePayload(r, was, head + word + Varint(Width(st) * 8 + st), data);
      Regroup4(held, Header(id, ARRAY_FIXLEN), word, Varint(Width(st) * 8 + st), data);
    }

    /**
     Integer arrays.  The count and the id are settled before the header; an
     element outside the declared width is refused where the loop reaches it,
     behind the header and the elements before it.
     */
    method WriteInts(id: int, signed: bool, lo: int, hi: int, values: seq<int>, cap: int) returns (r: Outcome)
      requires Valid() && WidthOk(signed, lo, hi)
      modifies this, pool
      ensures Valid()
      ensures !(CountOk(|values|, cap) && 0 <= id <= ID_MAX) ==> r.Argument? && State() == old(State())
      ensures CountOk(|values|, cap) && 0 <= id <= ID_MAX && FirstBad(values, lo, hi) == |values| ==>
        !r.Argument? && Wrote(r, Room(), old(State()), State(), Ints(id, signed, values))
      ensures CountOk(|values|, cap) && 0 <= id <= ID_MAX && FirstBad(values, lo, hi) < |values| ==>
        var k := FirstBad(values, lo, hi);
        !r.Done? && npending == 0 && depth == old(depth) &&
        Progress(if r.Argument? then Done else r, Room(), old(Out()), Out(), Headers(old(State()).pending) +
          (Header(id, if signed then ARRAY_SIGNED else ARRAY_UNSIGNED) + Varint(|values|) +
           Elements(signed, values[..k])))
      ensures Steady()
    {
      hide Progress, Room, Plain, Headers, Header, Varint, PiecesOk, Elements, FirstBad;
      if !CountOk(|values|, cap) {
        return Argument;
      }
      var wt := if signed then ARRAY_SIGNED else ARRAY_UNSIGNED;
      ghost var was, held := Out(), Headers(State().pending);
      r := WriteHeader(id, wt);
      if r.Argument? {
        return;
      }
      ghost var head := held + Header(id, wt);
      r := WriteWord(r, was, head, |values|);
      r := WriteElements(r, was, head + Varint(|values|), signed, lo, hi, values);
      ghost var k := FirstBad(values, lo, hi);
      Regroup3(held, Header(id, wt), Varint(|values|), Elements(signed, values[..k]));
      if k == |values| {
        assert values[..k] == values;
      }
    }

    /** The element loop. */
    method WriteElements(before: Outcome, ghost was: seq<byte>, ghost head: seq<byte>,
        signed: bool, lo: int, hi: int, values: seq<int>)
      returns (r: Outcome)
      requires Valid() && npending == 0 && WidthOk(signed, lo, hi)
      requires !before.Argument? && Progress(before, Room(), was, Out(), head)
      modifies this, pool
      ensures Valid() && npending == 0 && depth == old(depth)
      ensures ElementsEnd(r, Room(), was, Out(), head, signed, lo, hi, values)
      ensures Steady()
    {
      hide PiecesOk;
      if before.Full? {
        StoppedBefore(Room(), was, Out(), head, signed, lo, hi, values);
        return Full;
      }
      hide Progress, Room, Plain, Varint, PiecesOk, ElementsAt, ElementsEnd, FirstBad;
      ElementsStart(Room(), was, Out(), head, signed, lo, hi, values);
      for i := 0 to |values|
        invariant Valid() && npending == 0 && depth == old(depth)
        invariant ElementsAt(Room(), was, Out(), head, signed, lo, hi, values, i) && Steady()
      {
        ghost var mid := Out();
        r := WriteElement(signed, lo, hi, values[i]);
        ElementsGoOn(r, Room(), was, mid, Out(), head, signed, lo, hi, values, i);
        if !r.Done? {
          return;
        }
      }
      ElementsDone(Room(), was, Out(), head, signed, lo, hi, values);
      return Done;
    }

    method WriteElement(signed: bool, lo: int, hi: int, v: int) returns (r: Outcome)
      requires Valid() && npending == 0 && WidthOk(signed, lo, hi)
      modifies this, pool
      ensures Valid() && npending == 0 && depth == old(depth)
      ensures r.Argument? <==> !(lo <= v <= hi)
      ensures Progress(r, Room(), old(Out()), Out(), if lo <= v <= hi then Varint(Raw(signed, v)) else [])
      ensures Steady()
    {
      hide PiecesOk, Plain, Varint;
      if v < lo || v > hi {
        return Argument;
      }
      var raw: word := if signed then ZigzagRaw(v) else v;
      r := EmitVarint(raw);
    }

    // ----- sequences ------------------------------------------------------------

    /** Opens a sequence, holding its header back. */
    method WriteSequenceBegin(id: int) returns (r: Outcome)
      requires Valid()
      modifies this`npending, this`depth, pending
      ensures Valid() && !r.Full?
      ensures r.Argument? <==> !Accepted(old(State()), Open(id))
      ensures State() == Step(old(State()), Open(id))
    {
      if depth >= MAX_DEPTH || id < 0 || id > ID_MAX {
        return Argument;
      }
      pending[npending] := id;
      npending, depth := npending + 1, depth + 1;
      assert pending[..npending] == old(pending[..npending]) + [id];
      return Done;
    }

    /** Closes the innermost sequence; one without content vanishes. */
    method WriteSequenceEnd() returns (r: Outcome)
      requires Valid()
      modifies this, pool
      ensures Valid()
      ensures r.Argument? <==> !Accepted(old(State()), Close)
      ensures !r.Full? ==> State() == Step(old(State()), Close)
      ensures r.Full? ==> State() == old(State())
      ensures r.Full? <==> Room().Some? && Room().value < |Step(old(State()), Close).out|
      ensures Steady()
    {
      if depth == 0 {
        return Argument;
      }
      if npending > 0 {
        npending, depth := npending - 1, depth - 1;
        assert pending[..npending] == old(pending[..npending])[..npending];
        return Done;
      }
      assert pending[..npending] == [];
      ghost var was := Out();
      r := EmitVarint(SEQUENCE_END);
      if r.Full? {
        OneByte(Room(), was, Out());
        return;
      }
      depth := depth - 1;
    }

    /** Closes the innermost sequence and keeps its frame, empty or not. */
    method WriteSequenceEndKeep() returns (r: Outcome)
      requires Valid()
      modifies this, pool
      ensures Valid()
      ensures r.Argument? <==> !Accepted(old(State()), CloseKeep)
      ensures !r.Full? ==> State() == Step(old(State()), CloseKeep)
      ensures r.Full? <==> Room().Some? && Room().value < |Step(old(State()), CloseKeep).out|
      ensures Steady()
      ensures r.Full? ==> npending == 0 && depth == old(depth)
      ensures r.Full? ==> Progress(r, Room(), old(Out()), Out(), Headers(old(State()).pending) + [SEQUENCE_END])
    {
      Filled();
      ghost var was := State();
      hide Progress, Room, Plain, Headers, Step, PiecesOk;
      if depth == 0 {
        RefusedClose(was);
        return Argument;
      }
      r := CloseFrame(was);
      KeptIsStep(r, Room(), was, Out());
      if r.Done? {
        depth := depth - 1;
      }
    }

    /** What is held back and the end marker. */
    method CloseFrame(ghost was: Frames) returns (r: Outcome)
      requires Valid() && was == State()
      modifies this, pool
      ensures Valid() && npending == 0 && depth == old(depth) && !r.Argument? && Steady()
      ensures Progress(r, Room(), was.out, Out(), Headers(was.pending) + [SEQUENCE_END])
    {
      Filled();
      NoHeaders(Room(), was.out, was.pending);
      assert was.pending[..0] == [];
      hide Progress, Room, Plain, Headers, PiecesOk;
      assert Varint(SEQUENCE_END) == [SEQUENCE_END];
      hide Varint;
      r := Done;
      if npending > 0 {
        r := CommitPending();
      }
      if r.Full? {
        Stopped(Room(), was.out, Out(), Headers(was.pending), [SEQUENCE_END]);
        return;
      }
      ghost var mid := Out();
      r := EmitVarint(SEQUENCE_END);
      Then(r, Room(), was.out, mid, Out(), Headers(was.pending), [SEQUENCE_END]);
    }

    /**
     The whole message of the in-memory shape: the drained chunks and the tail,
     with whatever an array installed on the way had reserved at its front.
     */
    method GetValue() returns (value: seq<byte>)
      requires Valid() && shape.InMemory?
      ensures value == Bytes(handed) + fixed[..cursor]
      ensures Plain() ==> value == Out()
    {
      if Plain() {
        UnreservedBytes(handed);
      }
      value := Join(result) + fixed[..cursor];
    }

    /** Drains what is buffered where there is a sink; the bytes put out stay the same. */
    method Flush() returns (used: nat)
      requires Valid()
      modifies this`fixed, this`cursor, this`base, this`handed, this`result, this`script
      ensures Valid() && Out() == old(Out()) && used == old(cursor)
      ensures !shape.Fixed? && used > 0 ==> Out() == Payload(handed)
    {
      used := cursor;
      if used > 0 && !shape.Fixed? {
        var drained := Drain();
      }
    }
  }

  lemma RunGoesOn(r: Outcome, room: Option<nat>, was: seq<byte>, mid: seq<byte>, now: seq<byte>, run: seq<nat>, i: nat)
    requires i < |run| && !r.Argument?
    requires Progress(Done, room, was, mid, Headers(run[..i]))
    requires Progress(r, room, mid, now, Header(run[i], SEQUENCE_START))
    ensures r.Done? ==> Progress(r, room, was, now, Headers(run[..i + 1]))
    ensures r.Full? ==> Progress(r, room, was, now, Headers(run))
  {
    HeadersGrow(run, i);
    Then(r, room, was, mid, now, Headers(run[..i]), Header(run[i], SEQUENCE_START));
    if r.Full? {
      StoppedEarly(room, was, now, run, i + 1);
    }
  }

  lemma RefusedClose(s: Frames)
    requires FramesOk(s) && s.depth == 0
    ensures !Accepted(s, CloseKeep) && Step(s, CloseKeep) == s
  {
  }

  lemma KeptIsStep(r: Outcome, room: Option<nat>, s: Frames, now: seq<byte>)
    requires FramesOk(s) && s.depth > 0 && !r.Argument?
    requires Progress(r, room, s.out, now, Headers(s.pending) + [SEQUENCE_END])
    ensures Accepted(s, CloseKeep)
    ensures r.Done? ==> Step(s, CloseKeep) == Frames(now, [], s.depth - 1)
    ensures r.Full? <==> room.Some? && room.value < |Step(s, CloseKeep).out|
  {
    hide Headers;
    Regroup2(s.out, Headers(s.pending), [SEQUENCE_END]);
  }

  lemma NoHeaders(room: Option<nat>, was: seq<byte>, run: seq<nat>)
    requires room.Some? ==> |was| <= room.value
    ensures Progress(Done, room, was, was, Headers(run[..0]))
  {
    assert run[..0] == [] && was + [] == was;
  }

  lemma OneByte(room: Option<nat>, was: seq<byte>, now: seq<byte>)
    requires Progress(Full, room, was, now, Varint(SEQUENCE_END)) && now != was + [SEQUENCE_END]
    ensures now == was
  {
    assert |now| <= |was| + 1;
  }

  lemma HeadersGrow(run: seq<nat>, i: nat)
    requires i < |run|
    ensures Headers(run[..i + 1]) == Headers(run[..i]) + Header(run[i], SEQUENCE_START)
  {
    assert run[..i + 1][..i] == run[..i];
  }

  lemma {:induction false} StoppedEarly(room: Option<nat>, was: seq<byte>, now: seq<byte>, run: seq<nat>, k: nat)
    requires k <= |run| && Progress(Full, room, was, now, Headers(run[..k]))
    ensures Progress(Full, room, was, now, Headers(run))
    decreases |run| - k
  {
    if k < |run| {
      HeadersGrow(run, k);
      Stopped(room, was, now, Headers(run[..k]), Header(run[k], SEQUENCE_START));
      StoppedEarly(room, was, now, run, k + 1);
    } else {
      assert run[..k] == run;
    }
  }

  /** The first `i` elements are in range and out. */
  ghost predicate ElementsAt(room: Option<nat>, was: seq<byte>, now: seq<byte>, head: seq<byte>,
      signed: bool, lo: int, hi: int, values: seq<int>, i: nat)
    requires WidthOk(signed, lo, hi)
  {
    && i <= FirstBad(values, lo, hi)
    && Progress(Done, room, was, now, head + Elements(signed, values[..i]))
  }

  /** How the element loop ends: through, at the first bad element, or out of array. */
  ghost predicate ElementsEnd(r: Outcome, room: Option<nat>, was: seq<byte>, now: seq<byte>, head: seq<byte>,
      signed: bool, lo: int, hi: int, values: seq<int>)
    requires WidthOk(signed, lo, hi)
  {
    var k := FirstBad(values, lo, hi);
    && (r.Done? ==> k == |values|) && (r.Argument? ==> k < |values|)
    && Progress(if r.Argument? then Done else r, room, was, now, head + Elements(signed, values[..k]))
  }

  lemma ElementsStart(room: Option<nat>, was: seq<byte>, now: seq<byte>, head: seq<byte>,
      signed: bool, lo: int, hi: int, values: seq<int>)
    requires WidthOk(signed, lo, hi) && Progress(Done, room, was, now, head)
    ensures ElementsAt(room, was, now, head, signed, lo, hi, values, 0)
  {
    assert values[..0] == [] && head + [] == head;
  }

  lemma StoppedBefore(room: Option<nat>, was: seq<byte>, now: seq<byte>, head: seq<byte>,
      signed: bool, lo: int, hi: int, values: seq<int>)
    requires WidthOk(signed, lo, hi) && Progress(Full, room, was, now, head)
    ensures ElementsEnd(Full, room, was, now, head, signed, lo, hi, values)
  {
    Stopped(room, was, now, head, Elements(signed, values[..FirstBad(values, lo, hi)]));
  }

  lemma ElementsDone(room: Option<nat>, was: seq<byte>, now: seq<byte>, head: seq<byte>,
      signed: bool, lo: int, hi: int, values: seq<int>)
    requires WidthOk(signed, lo, hi) && ElementsAt(room, was, now, head, signed, lo, hi, values, |values|)
    ensures ElementsEnd(Done, room, was, now, head, signed, lo, hi, values)
  {
  }

  lemma ElementsGoOn(r: Outcome, room: Option<nat>, was: seq<byte>, mid: seq<byte>, now: seq<byte>, head: seq<byte>,
      signed: bool, lo: int, hi: int, values: seq<int>, i: nat)
    requires i < |values| && WidthOk(signed, lo, hi)
    requires ElementsAt(room, was, mid, head, signed, lo, hi, values, i)
    requires r.Argument? <==> !(lo <= values[i] <= hi)
    requires Progress(r, room, mid, now, if lo <= values[i] <= hi then Varint(Raw(signed, values[i])) else [])
    ensures r.Done? ==> ElementsAt(room, was, now, head, signed, lo, hi, values, i + 1)
    ensures !r.Done? ==> ElementsEnd(r, room, was, now, head, signed, lo, hi, values)
  {
    hide Elements, Varint, Raw;
    if r.Argument? {
      return;
    }
    var e, v := Elements(signed, values[..i]), Varint(Raw(signed, values[i]));
    assert values[..i + 1] == values[..i] + [values[i]];
    ElementsAppend(signed, values[..i], values[i]);
    hide Progress;
    Then(r, room, was, mid, now, head + e, v);
    Regroup2(head, e, v);
    if r.Full? {
      ElementStops(room, was, now, head, signed, lo, hi, values, i + 1);
    }
  }

  /** Where the room ends at some element, it ends in the whole run. */
  lemma ElementStops(room: Option<nat>, was: seq<byte>, now: seq<byte>, head: seq<byte>,
      signed: bool, lo: int, hi: int, values: seq<int>, i: nat)
    requires WidthOk(signed, lo, hi) && i <= FirstBad(values, lo, hi)
    requires Progress(Full, room, was, now, head + Elements(signed, values[..i]))
    ensures Progress(Full, room, was, now, head + Elements(signed, values[..FirstBad(values, lo, hi)]))
  {
    hide Elements, Progress;
    var k := FirstBad(values, lo, hi);
    ElementsSplit(signed, values[..k], i);
    assert values[..k][..i] == values[..i];
    var rest := Elements(signed, values[..k][i..]);
    Stopped(room, was, now, head + Elements(signed, values[..i]), rest);
    Regroup2(head, Elements(signed, values[..i]), rest);
  }

  lemma {:induction false} ElementsSplit(signed: bool, vs: seq<int>, i: nat)
    requires i <= |vs| && forall j | 0 <= j < |vs| :: ValueOk(signed, vs[j])
    ensures Elements(signed, vs) == Elements(signed, vs[..i]) + Elements(signed, vs[i..])
    decreases i
  {
    if i == 0 {
      assert vs[..0] == [] && vs[0..] == vs;
    } else {
      ElementsSplit(signed, vs[1..], i - 1);
      assert vs[..i][1..] == vs[1..][..i - 1] && vs[1..][i - 1..] == vs[i..];
    }
  }
}

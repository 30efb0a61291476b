/**
 The push decoder as a machine over the bytes that are left.  A step consumes
 one header, one value or one skipped value, or waits for more bytes, or ends
 the decode.  The decoder class is proved to run this machine; the laws about
 chunks, caps and scopes are proved of the machine.
 */
module Machine {
  import opened Wire
  import opened Message
  import opened Schema
  import Utf8
  import F = Floats

  // ----- reading --------------------------------------------------------------

  /** How reading a run ends: complete, out of bytes, or malformed. */
  datatype Verdict = Through | Short | Bad

  /** Elements decoded one by one, up to the first that is truncated, overlong or out of width. */
  datatype Elems = Elems(values: seq<int>, used: nat, end: Verdict)

  function ReadElems(s: seq<byte>, count: nat, signed: bool, lo: int, hi: int): Elems {
    if count == 0 then Elems([], 0, Through)
    else
      match ReadVarint(s)
      case More => Elems([], 0, Short)
      case Overlong => Elems([], 0, Bad)
      case Got(raw, n) =>
        ReadVarintBounds(s);
        var v := Cooked(signed, raw);
        if v < lo || v > hi then Elems([], 0, Bad)
        else
          var rest := ReadElems(s[n..], count - 1, signed, lo, hi);
          Elems([v] + rest.values, n + rest.used, rest.end)
  }

  /**
   The value a header announced and nobody has taken yet.  `Limit` is one a
   receiver cap has rejected, pending where it is headed; `Discard` is what is
   left of one that is being dropped.
   */
  datatype Pending =
    | Nothing
    | Scalar(signed: bool)
    | Payload(st: nat, len: nat)
    | VArray(signed: bool, count: nat)
    | FArray(st: nat, count: nat)
    | Limit(inner: Pending)
    | Discard(nbytes: nat, nvarints: nat, vbytes: nat)

  function Bare(p: Pending): Pending {
    if p.Limit? then p.inner else p
  }

  predicate Announced(p: Pending) {
    match p
    case Scalar(_) => true
    case Payload(st, len) => st <= BLOB && len <= FIXLEN_MAX && (st == FP32 ==> len == 4) && (st == FP64 ==> len == 8)
    case VArray(_, count) => count <= ARRAY_MAX
    case FArray(st, count) => st <= FP64 && count <= ARRAY_MAX
    case _ => false
  }

  predicate PendingOk(p: Pending) {
    match p
    case Nothing => true
    case Discard(_, _, vbytes) => vbytes < VARINT_MAX
    case Limit(inner) => Announced(inner) && !inner.Scalar? && (inner.Payload? ==> inner.st >= STRING)
    case _ => Announced(p)
  }

  /** Drops bytes of varints, `vbytes` of the current one being gone already. */
  function DropVarints(s: seq<byte>, left: nat, vbytes: nat): (r: (nat, nat, nat, Verdict))
    requires vbytes < VARINT_MAX
    ensures r.1 < VARINT_MAX && r.2 <= |s|
    ensures r.3.Short? ==> r.2 == |s|
  {
    if left == 0 then (0, vbytes, 0, Through)
    else if s == [] then (left, vbytes, 0, Short)
    else if vbytes == VARINT_MAX - 1 && s[0] > 1 then (left, vbytes, 0, Bad)
    else
      var (l, v, n, end) :=
        if vbytes == VARINT_MAX - 1 || s[0] < 128 then DropVarints(s[1..], left - 1, 0)
        else DropVarints(s[1..], left, vbytes + 1);
      (l, v, n + 1, end)
  }

  datatype Drained = Drained(rest: Pending, used: nat, end: Verdict)

  /** Drops what is at hand of `nbytes` raw bytes and `nvarints` varints. */
  function Drain(s: seq<byte>, nbytes: nat, nvarints: nat, vbytes: nat): (d: Drained)
    requires vbytes < VARINT_MAX
    ensures PendingOk(d.rest) && d.used <= |s|
    ensures d.end.Short? ==> d.used == |s|
  {
    if |s| < nbytes then Drained(Discard(nbytes - |s|, nvarints, vbytes), |s|, Short)
    else
      var (left, vb, n, end) := DropVarints(s[nbytes..], nvarints, vbytes);
      Drained(if end.Short? then Discard(0, left, vb) else Nothing, nbytes + n, end)
  }

  // ----- headers --------------------------------------------------------------

  datatype Head = Head(wt: nat, id: nat, sub: int, pending: Pending, used: nat) | HeadShort | HeadBad

  /** A receiver cap on the announced value, parked on it rather than raised. */
  function Capped(cfg: Config, p: Pending): Pending {
    match p
    case Payload(st, len) =>
      if (st == STRING && len > cfg.textCap) || (st == BLOB && len > cfg.blobCap) then Limit(p) else p
    case VArray(_, count) => if count > cfg.arrayCap then Limit(p) else p
    case FArray(_, count) => if count > cfg.arrayCap then Limit(p) else p
    case _ => p
  }

  function FixlenHead(cfg: Config, id: nat, s: seq<byte>): Head {
    match ReadVarint(s)
    case More => HeadShort
    case Overlong => HeadBad
    case Got(word, n) =>
      var len, st := word / 8, word % 8;
      var p := Payload(st, len);
      if !Announced(p) then HeadBad else Head(FIXLEN, id, st, Capped(cfg, p), n)
  }

  function VArrayHead(cfg: Config, id: nat, signed: bool, s: seq<byte>): Head {
    match ReadVarint(s)
    case More => HeadShort
    case Overlong => HeadBad
    case Got(count, n) =>
      if count > ARRAY_MAX then HeadBad
      else Head(if signed then ARRAY_SIGNED else ARRAY_UNSIGNED, id, -1, Capped(cfg, VArray(signed, count)), n)
  }

  function FArrayHead(cfg: Config, id: nat, s: seq<byte>): Head {
    match ReadVarint(s)
    case More => HeadShort
    case Overlong => HeadBad
    case Got(count, n) =>
      if count > ARRAY_MAX then HeadBad
      else
        ReadVarintBounds(s);
        match ReadVarint(s[n..])
        case More => HeadShort
        case Overlong => HeadBad
        case Got(word, k) =>
          var st := word % 8;
          if st > FP64 || word / 8 != Width(st) then HeadBad
          else Head(ARRAY_FIXLEN, id, st, Capped(cfg, FArray(st, count)), n + k)
  }

  /** What the wire type asks for behind the header word. */
  function HeadTail(cfg: Config, wt: nat, id: nat, s: seq<byte>, depth: nat): Head {
    if wt == UNSIGNED || wt == SIGNED then Head(wt, id, -1, Scalar(wt == SIGNED), 0)
    else if wt == FIXLEN then FixlenHead(cfg, id, s)
    else if wt == ARRAY_UNSIGNED || wt == ARRAY_SIGNED then VArrayHead(cfg, id, wt == ARRAY_SIGNED, s)
    else if wt == ARRAY_FIXLEN then FArrayHead(cfg, id, s)
    else if wt == SEQUENCE_START then
      if depth >= MAX_DEPTH then HeadBad else Head(wt, id, -1, Nothing, 0)
    else if depth == 0 then HeadBad
    else Head(wt, id, -1, Nothing, 0)
  }

  /** One field header with its length and count words, at `depth` open sequences. */
  function ParseHead(cfg: Config, s: seq<byte>, depth: nat): Head {
    match ReadVarint(s)
    case More => HeadShort
    case Overlong => HeadBad
    case Got(header, n) =>
      ReadVarintBounds(s);
      if header / 8 > ID_MAX then HeadBad
      else
        var tail := HeadTail(cfg, header % 8, header / 8, s[n..], depth);
        if tail.Head? then tail.(used := tail.used + n) else tail
  }

  /** What every accepted header guarantees. */
  predicate HeadOk(h: Head, s: seq<byte>, depth: nat) {
    h.Head? ==>
      && h.used <= |s| && h.wt < 8 && PendingOk(h.pending)
      && (h.wt == SEQUENCE_START ==> depth < MAX_DEPTH)
      && (h.wt == SEQUENCE_END ==> depth > 0)
      && (h.wt >= SEQUENCE_START ==> h.pending == Nothing)
      && (h.wt < SEQUENCE_START ==> Announced(Bare(h.pending)) && TagOf(Bare(h.pending)) == (h.wt, h.sub))
  }

  lemma FArrayHeadBounds(cfg: Config, id: nat, s: seq<byte>, depth: nat)
    ensures HeadOk(FArrayHead(cfg, id, s), s, depth)
  {
    ReadVarintBounds(s);
    if ReadVarint(s).Got? {
      ReadVarintBounds(s[ReadVarint(s).len..]);
    }
  }

  lemma HeadTailBounds(cfg: Config, wt: nat, id: nat, s: seq<byte>, depth: nat)
    requires wt < 8
    ensures HeadOk(HeadTail(cfg, wt, id, s, depth), s, depth)
    ensures
      var h := HeadTail(cfg, wt, id, s, depth);
      h.Head? ==> h.id == id && h.wt == wt
  {
    hide ReadVarint, FArrayHead;
    ReadVarintBounds(s);
    FArrayHeadBounds(cfg, id, s, depth);
    FArrayHeadNames(cfg, id, s);
  }

  lemma FArrayHeadNames(cfg: Config, id: nat, s: seq<byte>)
    ensures
      var h := FArrayHead(cfg, id, s);
      h.Head? ==> h.id == id && h.wt == ARRAY_FIXLEN
  {
    hide ReadVarint;
  }

  lemma ParseHeadBounds(cfg: Config, s: seq<byte>, depth: nat)
    ensures
      var h := ParseHead(cfg, s, depth);
      HeadOk(h, s, depth) && (h.Head? ==> h.used > 0 && h.id <= ID_MAX)
  {
    ReadVarintBounds(s);
    match ReadVarint(s)
    case Got(header, n) => HeadTailBounds(cfg, header % 8, header / 8, s[n..], depth);
    case _ =>
  }

  /** The wire type and subtype of an announced value. */
  function TagOf(p: Pending): (nat, int) {
    match p
    case Scalar(signed) => (if signed then SIGNED else UNSIGNED, -1)
    case Payload(st, _) => (FIXLEN, st)
    case VArray(signed, _) => (if signed then ARRAY_SIGNED else ARRAY_UNSIGNED, -1)
    case FArray(st, _) => (ARRAY_FIXLEN, st)
    case _ => (SEQUENCE_END, -1)
  }

  // ----- the state --------------------------------------------------------------

  /** Who opened a sequence: a table row, the handler, or the handler by naming a child. */
  datatype Opener = ByTable | ByHandler | ByChild

  /** What an end marker brings back, and to whom it belongs. */
  datatype Frame = Frame(table: Option<nat>, visitor: Option<int>, opener: Opener)

  /**
   Between fields, in the middle of taking a value, or inside a sequence that
   is being skipped (`nest` of them open beyond the handler's scopes).
   */
  datatype Phase = Walk | Take(id: nat, row: Option<Row>) | Skip(nest: nat)

  datatype M = M(
    phase: Phase,
    pending: Pending,
    table: Option<nat>,
    visitor: Option<int>,
    scopes: seq<Frame>,
    words: seq<word>,
    objects: seq<Obj>,
    log: seq<Call>)

  function Start(cfg: Config, words: seq<word>, objects: seq<Obj>): M {
    M(Walk, Nothing, if cfg.tabled then Some(0) else None, cfg.visitor, [], words, objects, [])
  }

  function Depth(m: M): nat {
    |m.scopes| + if m.phase.Skip? then m.phase.nest else 0
  }

  predicate TableOk(cfg: Config, table: Option<nat>) {
    table.Some? ==> cfg.tabled && table.value < |cfg.tables|
  }

  predicate FrameOk(cfg: Config, f: Frame, inside: Option<nat>, who: Option<int>) {
    && TableOk(cfg, f.table)
    && (f.opener.ByTable? <==> inside.Some?)
    && (!f.opener.ByTable? ==> f.visitor.Some? && who.Some?)
    && (!f.opener.ByChild? ==> who == f.visitor)
  }

  /** Each frame against the context its scope gave its contents, innermost first. */
  predicate ScopesOk(cfg: Config, scopes: seq<Frame>, table: Option<nat>, visitor: Option<int>) {
    scopes == [] ||
    (var f := scopes[|scopes| - 1];
     FrameOk(cfg, f, table, visitor) && ScopesOk(cfg, scopes[..|scopes| - 1], f.table, f.visitor))
  }

  predicate PhaseOk(cfg: Config, m: M) {
    match m.phase
    case Walk => true
    case Skip(nest) => nest > 0
    case Take(id, row) =>
      && id <= ID_MAX
      && Announced(Bare(m.pending))
      && (row.None? ==> m.visitor.Some?)
      && (row.Some? ==>
            && !row.value.kind.KSequence?
            && WireTag(row.value.kind) == TagOf(Bare(m.pending))
            && RowIn(cfg.tables, m.table, id, row.value)
            && RowOk(row.value, |cfg.tables|, |m.words|, |m.objects|))
  }

  predicate Ok(cfg: Config, m: M) {
    && ConfigOk(cfg, |m.words|, |m.objects|)
    && PendingOk(m.pending)
    && TableOk(cfg, m.table)
    && Depth(m) <= MAX_DEPTH
    && ScopesOk(cfg, m.scopes, m.table, m.visitor)
    && PhaseOk(cfg, m)
  }

  /**
   Why a decode ended: malformed input, a receiver cap, or storage of the
   caller's that cannot hold what was announced.
   */
  datatype Why = Invalid | Limited | Refused

  datatype Out = Next(m: M, used: nat) | Wait(m: M, used: nat) | Stop(m: M, why: Why)

  // ----- skipping ---------------------------------------------------------------

  /** Drops a remainder, or as much of it as is at hand. */
  function Drop(m: M, s: seq<byte>, nbytes: nat, nvarints: nat, vbytes: nat): Out
    requires vbytes < VARINT_MAX
  {
    var d := Drain(s, nbytes, nvarints, vbytes);
    match d.end
    case Through => Next(m.(pending := Nothing), d.used)
    case Short => Wait(m.(pending := d.rest), d.used)
    case Bad => Stop(m.(pending := Nothing), Invalid)
  }

  /** The raw bytes and the varints a value other than a scalar consists of. */
  function Extent(p: Pending): (nat, nat) {
    match p
    case Payload(_, len) => (len, 0)
    case VArray(_, count) => (0, count)
    case FArray(st, count) => (F.Packed(Width(st), count), 0)
    case _ => (0, 0)
  }

  function SkipPending(m: M, s: seq<byte>): Out
    requires PendingOk(m.pending) && m.pending != Nothing
  {
    var bare := Bare(m.pending);
    if bare.Scalar? then
      match ReadVarint(s)
      case More => Wait(m, 0)
      case Overlong => Stop(m, Invalid)
      case Got(_, n) => Next(m.(pending := Nothing), n)
    else if bare.Discard? then Drop(m, s, bare.nbytes, bare.nvarints, bare.vbytes)
    else Drop(m, s, Extent(bare).0, Extent(bare).1, 0)
  }

  // ----- dispatch ---------------------------------------------------------------

  function Tell(m: M, into: bool, e: Event): M {
    if m.visitor.None? then m else m.(log := m.log + [Call(m.visitor.value, into, e)])
  }

  /** An end marker: the scope closes to whoever heard it open. */
  function CloseScope(m: M): M
    requires m.scopes != []
  {
    var f := m.scopes[|m.scopes| - 1];
    var told := if f.opener.ByTable? then m else Tell(m, false, End);
    told.(scopes := m.scopes[..|m.scopes| - 1], table := f.table, visitor := f.visitor)
  }

  function Push(m: M, opener: Opener, table: Option<nat>, visitor: Option<int>): M {
    m.(scopes := m.scopes + [Frame(m.table, m.visitor, opener)], table := table, visitor := visitor)
  }

  /** The defaults of a re-selected option, replayed over the slots. */
  function ResetWords(words: seq<word>, rs: seq<(nat, word)>): (r: seq<word>)
    requires forall i | 0 <= i < |rs| :: rs[i].0 < |words|
    ensures |r| == |words|
    decreases |rs|
  {
    if rs == [] then words
    else
      assert forall i | 0 <= i < |rs[1..]| :: rs[1..][i] == rs[i + 1];
      ResetWords(words[rs[0].0 := rs[0].1], rs[1..])
  }

  function ResetObjects(objects: seq<Obj>, rs: seq<(nat, Obj)>): (r: seq<Obj>)
    requires forall i | 0 <= i < |rs| :: rs[i].0 < |objects|
    ensures |r| == |objects|
    decreases |rs|
  {
    if rs == [] then objects
    else
      assert forall i | 0 <= i < |rs[1..]| :: rs[1..][i] == rs[i + 1];
      ResetObjects(objects[rs[0].0 := rs[0].1], rs[1..])
  }

  /** A payload copied into the caller's buffer; None where it is no buffer or too short a one. */
  function CopyInto(o: Obj, payload: seq<byte>): Option<Obj> {
    if o.Buffer? && |payload| <= |o.bytes| then Some(Buffer(payload + o.bytes[|payload|..])) else None
  }

  /** The default payloads; false where one is refused, behind those already copied. */
  function ResetInto(objects: seq<Obj>, rs: seq<(nat, seq<byte>)>): (r: (seq<Obj>, bool))
    requires forall i | 0 <= i < |rs| :: rs[i].0 < |objects|
    ensures |r.0| == |objects|
    decreases |rs|
  {
    if rs == [] then (objects, true)
    else
      match CopyInto(objects[rs[0].0], rs[0].1)
      case None => (objects, false)
      case Some(o) =>
        assert forall i | 0 <= i < |rs[1..]| :: rs[1..][i] == rs[i + 1];
        ResetInto(objects[rs[0].0 := o], rs[1..])
  }

  /**
   An arriving option: unless it is the one held, it starts from its own
   defaults; then its id goes to the which slot.  False where a default's
   destination refuses it.
   */
  function Select(m: M, row: Row): (r: (M, bool))
    requires SlotsOk(row, |m.words|, |m.objects|)
    ensures |r.0.words| == |m.words| && |r.0.objects| == |m.objects|
    ensures r.0 == m.(words := r.0.words, objects := r.0.objects)
  {
    if row.which < 0 then (m, true)
    else if m.words[row.which] == row.id then (m, true)
    else
      var words := ResetWords(m.words, row.reset.words);
      var objects := ResetObjects(m.objects, row.reset.objects);
      var (copied, fits) := ResetInto(objects, row.reset.into);
      if fits then (m.(words := words[row.which := row.id], objects := copied), true)
      else (m.(words := words, objects := copied), false)
  }

  /** How a header leaves the machine: going on, or ending the decode. */
  datatype Turn = Go(m: M) | Die(m: M, why: Why)

  predicate Closed(cfg: Config, table: Option<nat>) {
    table.Some? && table.value < |cfg.tables| && cfg.tables[table.value].closed
  }

  /** The row the current table has for the field, if the wire's tag is the one it declares. */
  function Lookup(cfg: Config, table: Option<nat>, id: nat, wt: nat, sub: int): (r: Option<Row>)
    ensures r.Some? ==> table.Some? && table.value < |cfg.tables| && id in cfg.tables[table.value].rows
    ensures r.Some? ==> r.value == cfg.tables[table.value].rows[id]
    ensures r.Some? ==> WireTag(r.value.kind).0 == wt && (WireTag(r.value.kind).1 < 0 || WireTag(r.value.kind).1 == sub)
  {
    if table.None? || table.value >= |cfg.tables| || id !in cfg.tables[table.value].rows then None
    else
      var row := cfg.tables[table.value].rows[id];
      var (kind, st) := WireTag(row.kind);
      if kind == wt && (st < 0 || st == sub) then Some(row) else None
  }

  predicate Mistyped(cfg: Config, table: Option<nat>, id: nat, wt: nat, sub: int) {
    && table.Some? && table.value < |cfg.tables| && id in cfg.tables[table.value].rows
    && Lookup(cfg, table, id, wt, sub).None?
  }

  /** A sequence start that a table row names. */
  function EnterRow(m: M, row: Row): (t: Turn)
    requires SlotsOk(row, |m.words|, |m.objects|)
    ensures |t.m.words| == |m.words| && |t.m.objects| == |m.objects|
    ensures t.m.log == m.log
    ensures t.Go? ==>
      t.m == Push(m, ByTable, Some(row.child), m.visitor).(words := t.m.words, objects := t.m.objects)
  {
    var (picked, fits) := Select(m, row);
    if !fits then Die(picked, Refused)
    else
      var inside := Push(picked, ByTable, Some(row.child), picked.visitor);
      if row.countAt < 0 then Go(inside)
      else if inside.words[row.countAt] == TWO64 - 1 then Die(inside, Refused)
      else Go(inside.(words := inside.words[row.countAt := inside.words[row.countAt] + 1]))
  }

  /** A control hook is asked. */
  function Ask(m: M, q: Question): M {
    if m.visitor.None? then m else m.(log := m.log + [Asked(m.visitor.value, q)])
  }

  /** A sequence start that is the handler's to answer. */
  function EnterHandler(cfg: Config, m: M, id: nat): M {
    if m.visitor.None? then m.(phase := Skip(1))
    else
      match cfg.handler.enter(m.visitor.value, m.log, id)
      case Decline => Ask(m, Enters(id)).(phase := Skip(1))
      case Same => Push(Tell(m, false, Begin(id)), ByHandler, None, m.visitor)
      case Child(v) => Push(Tell(m, false, Begin(id)), ByChild, None, Some(v))
  }

  /** The one site a declared bound is applied at: over it is malformed, within it takes the cap off. */
  function Settle(p: Pending, declared: int): (r: Option<Pending>)
    requires Announced(Bare(p)) && PendingOk(p)
    ensures r.Some? ==> Bare(r.value) == Bare(p) && PendingOk(r.value)
  {
    if declared < 0 then Some(p)
    else match Bare(p)
      case Payload(_, len) => if len > declared then None else Some(Bare(p))
      case VArray(_, count) => if count > declared then None else Some(Bare(p))
      case FArray(_, count) => if count > declared then None else Some(Bare(p))
      case _ => Some(p)
  }

  /** The handler's schema bound, asked for strings, blobs and arrays only. */
  function HandlerBound(cfg: Config, m: M, id: nat): int
    requires m.visitor.Some?
  {
    var who := m.visitor.value;
    match Bare(m.pending)
    case Payload(st, len) => if st < STRING then -1 else cfg.handler.bound(who, m.log, id, len, FIXLEN, st)
    case VArray(signed, count) =>
      cfg.handler.bound(who, m.log, id, count, if signed then ARRAY_SIGNED else ARRAY_UNSIGNED, -1)
    case FArray(st, count) => cfg.handler.bound(who, m.log, id, count, ARRAY_FIXLEN, st)
    case _ => -1
  }

  /** The length or the count a header announced. */
  function Size(p: Pending): nat {
    match p
    case Payload(_, len) => len
    case VArray(_, count) => count
    case FArray(_, count) => count
    case _ => 0
  }

  /** The first question about a field: is it wanted? */
  function AskWanted(m: M, id: nat, wt: nat, sub: int): M {
    Ask(m, Wants(id, wt, sub, Size(Bare(m.pending))))
  }

  /** The second, about a string, a blob or an array: what bound is declared for it? */
  function AskBound(m: M, id: nat): M {
    match Bare(m.pending)
    case Payload(st, len) => if st < STRING then m else Ask(m, Bounds(id, len, FIXLEN, st))
    case VArray(signed, count) => Ask(m, Bounds(id, count, if signed then ARRAY_SIGNED else ARRAY_UNSIGNED, -1))
    case FArray(st, count) => Ask(m, Bounds(id, count, ARRAY_FIXLEN, st))
    case _ => m
  }

  /** Both, one after the other. */
  function Consulted(m: M, id: nat, wt: nat, sub: int): M {
    AskBound(AskWanted(m, id, wt, sub), id)
  }

  /** Does the handler take the field? */
  predicate Accepts(cfg: Config, m: M, id: nat, wt: nat, sub: int) {
    m.visitor.Some? && cfg.handler.accept(m.visitor.value, m.log, id, wt, sub, Size(Bare(m.pending)))
  }

  /** A value field no table takes: offered to the handler, or left pending to be skipped. */
  function Offer(cfg: Config, m: M, id: nat, wt: nat, sub: int): Turn
    requires Announced(Bare(m.pending)) && PendingOk(m.pending)
  {
    if m.visitor.None? then Go(m)
    else
      var asked := AskWanted(m, id, wt, sub);
      if !Accepts(cfg, m, id, wt, sub) then Go(asked)
      else
        match Settle(m.pending, HandlerBound(cfg, asked, id))
        case None => Die(AskBound(asked, id), Invalid)
        case Some(p) => Go(AskBound(asked, id).(pending := p, phase := Take(id, None)))
  }

  function Dispatch(cfg: Config, m: M, wt: nat, id: nat, sub: int): Turn
    requires Ok(cfg, m) && m.phase == Walk
    requires wt == SEQUENCE_END ==> m.scopes != []
    requires wt < SEQUENCE_START ==> Announced(Bare(m.pending))
    requires wt < 8 && id <= ID_MAX
  {
    if wt == SEQUENCE_END then Go(CloseScope(m))
    else
      var row := Lookup(cfg, m.table, id, wt, sub);
      if row.Some? then
        if wt == SEQUENCE_START then EnterRow(m, row.value)
        else Go(m.(phase := Take(id, row)))
      else if wt != SEQUENCE_START && Mistyped(cfg, m.table, id, wt, sub) then Go(m)
      else if Closed(cfg, m.table) then
        Go(if wt == SEQUENCE_START then m.(phase := Skip(1)) else m)
      else if wt == SEQUENCE_START then Go(EnterHandler(cfg, m, id))
      else Offer(cfg, m, id, wt, sub)
  }

  // ----- taking a value -----------------------------------------------------------

  /** Same scopes, same handler, storage of the same size. */
  predicate Kept(m: M, n: M) {
    && n.table == m.table && n.visitor == m.visitor && n.scopes == m.scopes
    && |n.words| == |m.words| && |n.objects| == |m.objects|
    && m.log <= n.log
  }

  /** Taking a value either takes all of it or leaves its bytes for the next attempt. */
  predicate Takes(m: M, s: seq<byte>, o: Out) {
    && Kept(m, o.m)
    && match o
       case Next(n, used) => n.phase == Walk && n.pending == Nothing && used <= |s|
       case Wait(n, used) =>
         used == 0 && n.phase == m.phase && Bare(n.pending) == Bare(m.pending) &&
         (n.pending == m.pending || n.pending == Bare(m.pending))
       case Stop(_, _) => true
  }

  /** Elements into consecutive slots. */
  function Fill(words: seq<word>, at: nat, values: seq<word>): (r: seq<word>)
    requires at + |values| <= |words|
    ensures |r| == |words|
  {
    words[..at] + values + words[at + |values|..]
  }

  /** An integer's 64-bit pattern: two's complement for a signed one. */
  function Slot(v: int): word {
    v % TWO64
  }

  function Slots(vs: seq<int>): (r: seq<word>)
    ensures |r| == |vs|
  {
    seq<word>(|vs|, i requires 0 <= i < |vs| => Slot(vs[i]))
  }

  /** Any value but 0 is true. */
  function Truth(w: word): word {
    if w == 0 then 0 else 1
  }

  function Truths(ws: seq<word>): (r: seq<word>)
    ensures |r| == |ws|
  {
    seq<word>(|ws|, i requires 0 <= i < |ws| => Truth(ws[i]))
  }

  /** The value is in hand: its arrival is recorded and the walk goes on. */
  function Arrived(m: M, row: Row, count: nat): M
    requires row.countAt < |m.words| && count < TWO64
  {
    var done := m.(phase := Walk, pending := Nothing);
    if row.countAt < 0 then done else done.(words := m.words[row.countAt := count])
  }

  function TakeScalar(m: M, row: Row, s: seq<byte>): (o: Out)
    requires SlotsOk(row, |m.words|, |m.objects|)
    requires row.kind.KUnsigned? || row.kind.KSigned? || row.kind.KBoolean?
    ensures Takes(m, s, o)
  {
    match ReadVarint(s)
    case More => Wait(m, 0)
    case Overlong => Stop(m, Invalid)
    case Got(raw, n) =>
      ReadVarintBounds(s);
      var v := if row.kind.KSigned? then ZigzagDecode(raw) else raw;
      if row.bounded && !row.kind.KBoolean? && (v > row.hi || (row.kind.KSigned? && v < row.lo)) then Stop(m, Invalid)
      else
        var stored := if row.kind.KBoolean? then Truth(raw) else Slot(v);
        Next(Arrived(m.(words := m.words[row.at := stored]), row, 1), n)
  }

  function TakeFloat(m: M, row: Row, s: seq<byte>): (o: Out)
    requires SlotsOk(row, |m.words|, |m.objects|)
    requires row.kind.KFloat32? || row.kind.KFloat64?
    ensures Takes(m, s, o)
  {
    var len := if row.kind.KFloat32? then 4 else 8;
    if |s| < len then Wait(m, 0)
    else
      Next(Arrived(m.(words := m.words[row.at := F.Element(s[..len], len, 0)]), row, 1), len)
  }

  function TakeObject(m: M, row: Row, s: seq<byte>): (o: Out)
    requires SlotsOk(row, |m.words|, |m.objects|)
    requires IsObject(row.kind) && Bare(m.pending).Payload? && Announced(Bare(m.pending))
    ensures Takes(m, s, o)
  {
    var len := Bare(m.pending).len;
    if row.into then
      var mine := m.(pending := Bare(m.pending));
      if !m.objects[row.at].Buffer? || |m.objects[row.at].bytes| < len then Stop(mine, Refused)
      else if |s| < len then Wait(mine, 0)
      else if row.kind.KString? && !Utf8.Valid(s[..len]) then Stop(mine, Invalid)
      else
        var filled := CopyInto(m.objects[row.at], s[..len]).value;
        Next(Arrived(mine.(objects := m.objects[row.at := filled]), row, len), len)
    else if m.pending.Limit? then Stop(m, Limited)
    else if |s| < len then Wait(m, 0)
    else if row.kind.KString? && !Utf8.Valid(s[..len]) then Stop(m, Invalid)
    else Next(Arrived(m.(objects := m.objects[row.at := Built(s[..len])]), row, 1), len)
  }

  /** The element width a row declares, with an open side at the widest its domain has. */
  function RowLo(row: Row): int {
    if row.bounded && row.kind.KArraySigned? then row.lo else -TWO63
  }

  function RowHi(row: Row): int {
    if row.bounded && !row.kind.KArrayBoolean? then row.hi else TWO64 - 1
  }

  function TakeInts(m: M, row: Row, s: seq<byte>): (o: Out)
    requires SlotsOk(row, |m.words|, |m.objects|)
    requires row.kind.KArrayUnsigned? || row.kind.KArraySigned? || row.kind.KArrayBoolean?
    requires m.pending.VArray? && m.pending.count <= row.cap && Announced(m.pending)
    ensures Takes(m, s, o)
  {
    var e := ReadElems(s, m.pending.count, row.kind.KArraySigned?, RowLo(row), RowHi(row));
    ReadElemsBounds(s, m.pending.count, row.kind.KArraySigned?, RowLo(row), RowHi(row));
    var raw := m.(words := Fill(m.words, row.at, Slots(e.values)));
    match e.end
    case Short => Wait(raw, 0)
    case Bad => Stop(raw, Invalid)
    case Through =>
      var stored := if row.kind.KArrayBoolean? then Truths(Slots(e.values)) else Slots(e.values);
      Next(Arrived(m.(words := Fill(m.words, row.at, stored)), row, m.pending.count), e.used)
  }

  function TakeFloats(m: M, row: Row, s: seq<byte>): (o: Out)
    requires SlotsOk(row, |m.words|, |m.objects|)
    requires row.kind.KArrayFloat32? || row.kind.KArrayFloat64?
    requires m.pending.FArray? && m.pending.count <= row.cap && Announced(m.pending)
    ensures Takes(m, s, o)
  {
    var width := if row.kind.KArrayFloat32? then 4 else 8;
    var len := F.Packed(width, m.pending.count);
    if |s| < len then Wait(m, 0)
    else
      var stored := F.Elements(s[..len], width, m.pending.count);
      Next(Arrived(m.(words := Fill(m.words, row.at, stored)), row, m.pending.count), len)
  }

  /** The assignment, once the option is selected and the bound settled. */
  function TakeReady(m: M, row: Row, s: seq<byte>): (o: Out)
    requires SlotsOk(row, |m.words|, |m.objects|) && !row.kind.KSequence?
    requires PendingOk(m.pending) && Announced(Bare(m.pending)) && WireTag(row.kind) == TagOf(Bare(m.pending))
    requires IsArray(row.kind) ==> m.pending == Bare(m.pending) && Settle(m.pending, row.cap).Some?
    ensures Takes(m, s, o)
  {
    if IsObject(row.kind) then TakeObject(m, row, s)
    else if row.kind.KFloat32? || row.kind.KFloat64? then TakeFloat(m, row, s)
    else if IsScalar(row.kind) then TakeScalar(m, row, s)
    else if row.kind.KArrayFloat32? || row.kind.KArrayFloat64? then TakeFloats(m, row, s)
    else TakeInts(m, row, s)
  }

  /** A field the table names: the option, the bound, then the assignment. */
  function TakeMapped(m: M, row: Row, s: seq<byte>): (o: Out)
    requires SlotsOk(row, |m.words|, |m.objects|) && !row.kind.KSequence?
    requires PendingOk(m.pending) && Announced(Bare(m.pending)) && WireTag(row.kind) == TagOf(Bare(m.pending))
    ensures Takes(m, s, o)
  {
    var (picked, fits) := Select(m, row);
    if !fits then Stop(picked, Refused)
    else
      match Settle(m.pending, row.Declared())
      case None => Stop(picked, Invalid)
      case Some(p) =>
        TakeReady(picked.(pending := p), row, s)
  }

  /** A value handed to the visitor, after which the walk goes on. */
  function Deliver(m: M, into: bool, e: Event): M {
    Tell(m.(phase := Walk, pending := Nothing), into, e)
  }

  function VisitPayload(cfg: Config, m: M, id: nat, st: nat, len: nat, s: seq<byte>): (o: Out)
    requires m.visitor.Some? && !Bare(m.pending).Limit?
    ensures Takes(m, s, o)
  {
    var dst := if st >= STRING then cfg.handler.place(m.visitor.value, m.log, id, FIXLEN, st, len) else None;
    if m.pending.Limit? && dst.None? then Stop(m, Limited)
    else
      var mine := m.(pending := Bare(m.pending));
      if dst.Some? && !BytesFit(dst.value, len) then Stop(mine, Refused)
      else if |s| < len then Wait(mine, 0)
      else if st == STRING && !Utf8.Valid(s[..len]) then Stop(mine, Invalid)
      else Next(Deliver(mine, dst.Some?, Fixlen(id, st, s[..len])), len)
  }

  function VisitInts(cfg: Config, m: M, id: nat, signed: bool, count: nat, s: seq<byte>): (o: Out)
    requires m.visitor.Some? && !Bare(m.pending).Limit?
    ensures Takes(m, s, o)
  {
    var layout := cfg.handler.layout(m.visitor.value, m.log, id, signed, count);
    if m.pending.Limit? && layout.into.None? then Stop(m, Limited)
    else
      var mine := m.(pending := Bare(m.pending));
      if layout.into.Some? && !IntsFit(layout.into.value, signed, layout.lo, layout.hi, count) then Stop(mine, Refused)
      else
        var e := ReadElems(s, count, signed, layout.lo, layout.hi);
        ReadElemsBounds(s, count, signed, layout.lo, layout.hi);
        match e.end
        case Short => Wait(mine, 0)
        case Bad => Stop(mine, Invalid)
        case Through => Next(Deliver(mine, layout.into.Some?, Ints(id, signed, e.values)), e.used)
  }

  /** The handler's answer for a fixlen array; the raw fp32 route asks for no destination. */
  function FloatPlace(cfg: Config, m: M, id: nat, st: nat, count: nat): Option<Dest>
    requires m.visitor.Some?
  {
    var who := m.visitor.value;
    if st == FP32 && cfg.handler.rawSingles(who) then None
    else cfg.handler.place(who, m.log, id, ARRAY_FIXLEN, st, count)
  }

  function VisitFloats(cfg: Config, m: M, id: nat, st: nat, count: nat, s: seq<byte>): (o: Out)
    requires m.visitor.Some? && !Bare(m.pending).Limit?
    ensures Takes(m, s, o)
  {
    var dst := FloatPlace(cfg, m, id, st, count);
    var len := F.Packed(Width(st), count);
    if m.pending.Limit? && dst.None? then Stop(m, Limited)
    else
      var mine := m.(pending := Bare(m.pending));
      if dst.Some? && !FloatsFit(dst.value, count) then Stop(mine, Refused)
      else if |s| < len then Wait(mine, 0)
      else Next(Deliver(mine, dst.Some?, Floats(id, st, s[..len])), len)
  }

  /** A field the visitor accepted: the typed hook for what the wire carried. */
  function Visit(cfg: Config, m: M, id: nat, s: seq<byte>): (o: Out)
    requires m.visitor.Some? && Announced(Bare(m.pending))
    ensures Takes(m, s, o)
  {
    match Bare(m.pending)
    case Scalar(signed) =>
      (match ReadVarint(s)
       case More => Wait(m, 0)
       case Overlong => Stop(m, Invalid)
       case Got(raw, n) =>
         ReadVarintBounds(s);
         Next(Deliver(m, false, Int(id, signed, Cooked(signed, raw))), n))
    case Payload(st, len) => VisitPayload(cfg, m, id, st, len, s)
    case VArray(signed, count) => VisitInts(cfg, m, id, signed, count, s)
    case FArray(st, count) => VisitFloats(cfg, m, id, st, count, s)
  }

  // ----- one step and a whole run ---------------------------------------------------

  /** A header inside a sequence that is being skipped. */
  function SkipHead(m: M, nest: nat, wt: nat, pending: Pending): M {
    if wt == SEQUENCE_END then m.(phase := if nest <= 1 then Walk else Skip(nest - 1))
    else if wt == SEQUENCE_START then m.(phase := Skip(nest + 1))
    else m.(pending := pending)
  }

  function StepHead(cfg: Config, m: M, s: seq<byte>): Out
    requires Ok(cfg, m) && !m.phase.Take? && m.pending == Nothing
  {
    match ParseHead(cfg, s, Depth(m))
    case HeadShort => Wait(m, 0)
    case HeadBad => Stop(m, Invalid)
    case Head(wt, id, sub, pending, used) =>
      if m.phase.Skip? then Next(SkipHead(m, m.phase.nest, wt, pending), used)
      else
        ParseHeadBounds(cfg, s, Depth(m));
        match Dispatch(cfg, m.(pending := pending), wt, id, sub)
        case Go(n) => Next(n, used)
        case Die(n, why) => Stop(n, why)
  }

  function Step(cfg: Config, m: M, s: seq<byte>): Out
    requires Ok(cfg, m)
  {
    match m.phase
    case Take(id, row) => if row.Some? then TakeMapped(m, row.value, s) else Visit(cfg, m, id, s)
    case _ =>
      if m.pending != Nothing then SkipPending(m, s)
      else if s == [] then Wait(m, 0)
      else StepHead(cfg, m, s)
  }

  lemma {:induction false} ReadElemsBounds(s: seq<byte>, count: nat, signed: bool, lo: int, hi: int)
    ensures
      var e := ReadElems(s, count, signed, lo, hi);
      && e.used <= |s| && |e.values| <= count
      && (e.end.Through? ==> |e.values| == count)
      && forall i | 0 <= i < |e.values| :: ValueOk(signed, e.values[i]) && lo <= e.values[i] <= hi
    decreases count
  {
    if count > 0 && ReadVarint(s).Got? {
      ReadVarintBounds(s);
      ReadElemsBounds(s[ReadVarint(s).len..], count - 1, signed, lo, hi);
    }
  }

  // ----- the invariant --------------------------------------------------------------

  /** Storage keeps its size, nothing delivered is taken back, and every step makes progress. */
  predicate Sound(cfg: Config, m: M, s: seq<byte>, o: Out) {
    && |o.m.words| == |m.words| && |o.m.objects| == |m.objects| && m.log <= o.m.log
    && match o
       case Next(n, used) => Ok(cfg, n) && used <= |s| && Measure(n, s[used..]) < Measure(m, s)
       case Wait(n, used) => Ok(cfg, n) && used <= |s|
       case Stop(_, _) => true
  }

  function Measure(m: M, s: seq<byte>): nat {
    2 * |s| + if m.pending == Nothing then 0 else 1
  }

  lemma SkipPendingSound(cfg: Config, m: M, s: seq<byte>)
    requires Ok(cfg, m) && !m.phase.Take? && m.pending != Nothing
    ensures Sound(cfg, m, s, SkipPending(m, s))
  {
    ReadVarintBounds(s);
  }

  lemma PushOk(cfg: Config, m: M, opener: Opener, table: Option<nat>, visitor: Option<int>)
    requires Ok(cfg, m) && m.phase == Walk && |m.scopes| < MAX_DEPTH
    requires TableOk(cfg, table) && FrameOk(cfg, Frame(m.table, m.visitor, opener), table, visitor)
    ensures Ok(cfg, Push(m, opener, table, visitor))
  {
    var p := Push(m, opener, table, visitor);
    assert p.scopes[..|p.scopes| - 1] == m.scopes;
  }

  predicate TurnOk(cfg: Config, m: M, t: Turn) {
    && |t.m.words| == |m.words| && |t.m.objects| == |m.objects| && m.log <= t.m.log
    && (t.Go? ==> Ok(cfg, t.m))
  }

  lemma StartSound(cfg: Config, m: M, id: nat, sub: int)
    requires Ok(cfg, m) && m.phase == Walk && |m.scopes| < MAX_DEPTH && m.pending == Nothing
    requires id <= ID_MAX
    ensures TurnOk(cfg, m, Dispatch(cfg, m, SEQUENCE_START, id, sub))
  {
    var row := Lookup(cfg, m.table, id, SEQUENCE_START, sub);
    if row.Some? {
      assert RowOk(row.value, |cfg.tables|, |m.words|, |m.objects|);
      PushOk(cfg, m, ByTable, Some(row.value.child), m.visitor);
    } else if m.visitor.Some? && !Closed(cfg, m.table) {
      EnterHandlerOk(cfg, m, id);
    }
  }

  /** What offering a field to the handler changes: the calls grow, and its value may be about to be taken. */
  lemma OfferShape(cfg: Config, m: M, id: nat, wt: nat, sub: int)
    requires Announced(Bare(m.pending)) && PendingOk(m.pending)
    ensures
      var t := Offer(cfg, m, id, wt, sub);
      && m.log <= t.m.log && t.m == m.(log := t.m.log, pending := t.m.pending, phase := t.m.phase)
      && PendingOk(t.m.pending) && Bare(t.m.pending) == Bare(m.pending)
      && (t.m.phase == m.phase || (t.m.phase == Take(id, None) && m.visitor.Some?))
      && (t.Die? ==> t.why.Invalid?)
  {
    hide HandlerBound;
  }

  lemma FieldSound(cfg: Config, m: M, wt: nat, id: nat, sub: int)
    requires Ok(cfg, m) && m.phase == Walk && id <= ID_MAX
    requires wt < SEQUENCE_START && Announced(Bare(m.pending)) && TagOf(Bare(m.pending)) == (wt, sub)
    ensures TurnOk(cfg, m, Dispatch(cfg, m, wt, id, sub))
  {
    OfferShape(cfg, m, id, wt, sub);
    hide Offer, ScopesOk;
    var row := Lookup(cfg, m.table, id, wt, sub);
    if row.Some? {
      TagsMatch(row.value.kind, Bare(m.pending));
      assert RowOk(row.value, |cfg.tables|, |m.words|, |m.objects|);
    }
  }

  lemma EndSound(cfg: Config, m: M, id: nat, sub: int)
    requires Ok(cfg, m) && m.phase == Walk && m.scopes != [] && m.pending == Nothing
    requires id <= ID_MAX
    ensures TurnOk(cfg, m, Dispatch(cfg, m, SEQUENCE_END, id, sub))
  {
  }

  lemma DispatchSound(cfg: Config, m: M, wt: nat, id: nat, sub: int)
    requires Ok(cfg, m) && m.phase == Walk
    requires wt == SEQUENCE_END ==> m.scopes != []
    requires wt == SEQUENCE_START ==> |m.scopes| < MAX_DEPTH
    requires wt >= SEQUENCE_START ==> m.pending == Nothing
    requires wt < SEQUENCE_START ==> Announced(Bare(m.pending)) && TagOf(Bare(m.pending)) == (wt, sub)
    requires wt < 8 && id <= ID_MAX
    ensures TurnOk(cfg, m, Dispatch(cfg, m, wt, id, sub))
  {
    hide Dispatch;
    if wt == SEQUENCE_START {
      StartSound(cfg, m, id, sub);
    } else if wt == SEQUENCE_END {
      EndSound(cfg, m, id, sub);
    } else {
      FieldSound(cfg, m, wt, id, sub);
    }
  }

  lemma TagsMatch(k: Kind, p: Pending)
    requires Announced(p)
    requires WireTag(k).0 == TagOf(p).0 && (WireTag(k).1 < 0 || WireTag(k).1 == TagOf(p).1)
    ensures WireTag(k) == TagOf(p)
  {
  }

  lemma EnterHandlerOk(cfg: Config, m: M, id: nat)
    requires Ok(cfg, m) && m.phase == Walk && |m.scopes| < MAX_DEPTH && m.visitor.Some?
    requires m.pending == Nothing
    ensures Ok(cfg, EnterHandler(cfg, m, id))
  {
    var told := Tell(m, false, Begin(id));
    match cfg.handler.enter(m.visitor.value, m.log, id)
    case Decline =>
    case Same => PushOk(cfg, told, ByHandler, None, m.visitor);
    case Child(v) => PushOk(cfg, told, ByChild, None, Some(v));
  }

  lemma StepHeadSound(cfg: Config, m: M, s: seq<byte>)
    requires Ok(cfg, m) && !m.phase.Take? && m.pending == Nothing
    ensures Sound(cfg, m, s, StepHead(cfg, m, s))
  {
    ParseHeadBounds(cfg, s, Depth(m));
    match ParseHead(cfg, s, Depth(m))
    case Head(wt, id, sub, pending, used) =>
      if m.phase.Walk? {
        DispatchSound(cfg, m.(pending := pending), wt, id, sub);
      }
    case _ =>
  }

  lemma TakesSound(cfg: Config, m: M, s: seq<byte>, o: Out)
    requires Ok(cfg, m) && m.phase.Take? && Takes(m, s, o)
    ensures Sound(cfg, m, s, o)
  {
  }

  lemma StepSound(cfg: Config, m: M, s: seq<byte>)
    requires Ok(cfg, m)
    ensures Sound(cfg, m, s, Step(cfg, m, s))
  {
    match m.phase
    case Take(id, row) =>
      TakesSound(cfg, m, s, Step(cfg, m, s));
    case _ =>
      if m.pending != Nothing {
        SkipPendingSound(cfg, m, s);
      } else if s != [] {
        StepHeadSound(cfg, m, s);
      }
  }

  function Later(o: Out, k: nat): Out {
    if o.Stop? then o else if o.Next? then o.(used := o.used + k) else o.(used := o.used + k)
  }

  /** Steps until the machine waits or stops. */
  function Run(cfg: Config, m: M, s: seq<byte>): (o: Out)
    requires Ok(cfg, m)
    ensures !o.Next? && |o.m.words| == |m.words| && |o.m.objects| == |m.objects|
    ensures o.Wait? ==> Ok(cfg, o.m) && o.used <= |s|
    decreases Measure(m, s)
  {
    StepSound(cfg, m, s);
    match Step(cfg, m, s)
    case Next(n, used) => Later(Run(cfg, n, s[used..]), used)
    case o => o
  }

  /** One step of a run. */
  lemma Unfold(cfg: Config, m: M, s: seq<byte>)
    requires Ok(cfg, m)
    ensures
      var o := Step(cfg, m, s);
      if o.Next? then
        Ok(cfg, o.m) && o.used <= |s| && Run(cfg, m, s) == Later(Run(cfg, o.m, s[o.used..]), o.used)
      else Run(cfg, m, s) == o
  {
    hide Step, Ok;
    StepSound(cfg, m, s);
  }
}

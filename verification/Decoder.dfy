/**
 The push decoder itself: a cursor over the bytes at hand, a reassembly buffer
 that never grows, and the fields that let a feed take up where the last one
 ran out of bytes.  Every feed is proved to be one feed of the machine.
 */
module Decoding {
  import opened Wire
  import opened Message
  import opened Schema
  import opened Machine
  import Chunks
  import Utf8
  import F = Floats

  // ----- varints over a cursor ------------------------------------------------

  /** `x << shift`. */
  function Shl(x: nat, shift: nat): nat {
    if shift == 0 then x else 2 * Shl(x, shift - 1)
  }

  lemma {:induction false} ShlSplits(x: nat, v: nat, shift: nat)
    ensures Shl(x + 128 * v, shift) == Shl(x, shift) + Shl(v, shift + 7)
  {
    if shift == 0 {
      assert Shl(v, 1) == 2 * v && Shl(v, 2) == 4 * v && Shl(v, 3) == 8 * v;
      assert Shl(v, 4) == 16 * v && Shl(v, 5) == 32 * v && Shl(v, 6) == 64 * v;
    } else {
      ShlSplits(x, v, shift - 1);
    }
  }

  /** What is left of a varint, put behind the bits already gathered. */
  function Lift(result: nat, k: nat, r: Read): Read {
    match r
    case Got(v, n) => Got(result + Shl(v, 7 * k), n + k)
    case other => other
  }

  lemma LiftStep(buf: seq<byte>, p: nat, k: nat, result: nat)
    requires k < 9 && p < |buf|
    ensures Lift(result, k, VarintFrom(buf[p..], k)) ==
      if buf[p] < 128 then Got(result + Shl(buf[p], 7 * k), k + 1)
      else Lift(result + Shl(buf[p] as int % 128, 7 * k), k + 1, VarintFrom(buf[p + 1..], k + 1))
  {
    assert buf[p..][1..] == buf[p + 1..];
    match VarintFrom(buf[p + 1..], k + 1)
    case Got(v, n) => ShlSplits(buf[p] as int % 128, v, 7 * k);
    case _ =>
  }

  /** Where the first byte of a varint leaves the gathering. */
  lemma LiftStart(buf: seq<byte>, p: nat)
    requires p < |buf|
    ensures ReadVarint(buf[p..]) ==
      if buf[p] < 128 then Got(buf[p], 1) else Lift(buf[p] as int % 128, 1, VarintFrom(buf[p + 1..], 1))
  {
    LiftStep(buf, p, 0, 0);
    assert ReadVarint(buf[p..]) == Lift(0, 0, VarintFrom(buf[p..], 0));
  }

  /** The tenth byte: one payload bit, and no eleventh byte. */
  lemma LiftLast(buf: seq<byte>, p: nat, result: nat)
    requires p < |buf|
    ensures Lift(result, 9, VarintFrom(buf[p..], 9)) ==
      if buf[p] > 1 then Overlong else Got(result + Shl(buf[p], 63), 10)
  {
  }

  lemma LiftEmpty(buf: seq<byte>, p: nat, k: nat, result: nat)
    requires p == |buf| && k <= 9
    ensures Lift(result, k, VarintFrom(buf[p..], k)) == More && ReadVarint(buf[p..]) == More
  {
  }

  /** The unchecked window of the array loop: ten bytes are known to be at hand. */
  method ReadWindow(buf: seq<byte>, start: nat) returns (r: Read)
    requires start + VARINT_MAX <= |buf| && buf[start] >= 128
    ensures r == ReadVarint(buf[start..]) && !r.More?
  {
    hide VarintFrom, ReadVarint, Shl, Lift;
    LiftStart(buf, start);
    var p := start + 1;
    var result: nat := buf[start] as int % 0x80;
    var shift := 7;
    ghost var k := 1;
    while shift < 63
      invariant shift == 7 * k && 1 <= k <= 9 && p == start + k
      invariant ReadVarint(buf[start..]) == Lift(result, k, VarintFrom(buf[p..], k))
    {
      LiftStep(buf, p, k, result);
      var b := buf[p];
      p := p + 1;
      result := result + Shl(b as int % 0x80, shift);
      if b < 0x80 {
        return Got(result, p - start);
      }
      shift, k := shift + 7, k + 1;
    }
    LiftLast(buf, p, result);
    if buf[p] > 0x01 {
      return Overlong;
    }
    return Got(result + Shl(buf[p], 63), p + 1 - start);
  }

  // ----- elements ---------------------------------------------------------------

  /** Elements decoded already, and what the rest of the run comes to. */
  function Join(done: seq<int>, used: nat, rest: Elems): Elems {
    Elems(done + rest.values, used + rest.used, rest.end)
  }

  /** One element of a run, given its varint. */
  lemma JoinStep(buf: seq<byte>, p: nat, left: nat, signed: bool, lo: int, hi: int, done: seq<int>, used: nat)
    requires p <= |buf| && left > 0
    ensures
      var whole := Join(done, used, ReadElems(buf[p..], left, signed, lo, hi));
      match ReadVarint(buf[p..])
      case More => whole == Elems(done, used, Short)
      case Overlong => whole == Elems(done, used, Bad)
      case Got(raw, n) =>
        && raw < TWO64 && 1 <= n && p + n <= |buf|
        && var v := Cooked(signed, raw);
           if v < lo || v > hi then whole == Elems(done, used, Bad)
           else whole == Join(done + [v], used + n, ReadElems(buf[p + n..], left - 1, signed, lo, hi))
  {
    ReadVarintBounds(buf[p..]);
    match ReadVarint(buf[p..])
    case Got(raw, n) =>
      assert buf[p..][n..] == buf[p + n..];
      var rest := ReadElems(buf[p + n..], left - 1, signed, lo, hi);
      assert done + ([Cooked(signed, raw)] + rest.values) == (done + [Cooked(signed, raw)]) + rest.values;
    case _ => assert done + [] == done;
  }

  lemma OneByte(buf: seq<byte>, p: nat)
    requires p < |buf|
    ensures buf[p] < 128 ==> ReadVarint(buf[p..]) == Got(buf[p], 1)
  {
  }

  /** The element bounds with an omitted side at the widest its domain has. */
  function Lo(lo: Option<int>): int {
    if lo.Some? then lo.value else -TWO63
  }

  function Hi(hi: Option<int>): int {
    if hi.Some? then hi.value else TWO64 - 1
  }

  /** Must a one-byte element be compared at all? */
  predicate CheckFast(lo: Option<int>, hi: Option<int>, signed: bool) {
    (lo.Some? || hi.Some?) && if signed then Lo(lo) > -65 || Hi(hi) < 63 else Lo(lo) > 0 || Hi(hi) < 127
  }

  /** The hoisted test is sound: where it is off, no one-byte element can be out of width. */
  lemma FastIsSound(lo: Option<int>, hi: Option<int>, signed: bool, b: byte)
    requires b < 128 && !CheckFast(lo, hi, signed)
    ensures Lo(lo) <= Cooked(signed, b) <= Hi(hi)
  {
    assert signed ==> -64 <= ZigzagDecode(b) <= 63;
  }

  lemma FillStep(words: seq<word>, at: nat, done: seq<int>, v: int)
    requires at + |done| < |words|
    ensures Fill(words, at, Slots(done))[at + |done| := Slot(v)] == Fill(words, at, Slots(done + [v]))
  {
    assert Slots(done + [v]) == Slots(done) + [Slot(v)];
  }

  /** An array as a sequence after one store. */
  lemma Stored(before: seq<word>, after: seq<word>, i: nat, w: word)
    requires i < |before| == |after| && after[i] == w
    requires forall j | 0 <= j < |before| && j != i :: after[j] == before[j]
    ensures after == before[i := w]
  {
  }

  // ----- headers ----------------------------------------------------------------

  /** What one call of the header walk comes to, a pending value skipped first. */
  datatype Heading = HField(head: Head, skipped: nat) | HWait(pending: Pending, used: nat) | HBad

  function Heading1(cfg: Config, depth: nat, s: seq<byte>, skipped: nat): Heading {
    if s == [] then HWait(Nothing, skipped)
    else
      match ParseHead(cfg, s, depth)
      case HeadShort => HWait(Nothing, skipped)
      case HeadBad => HBad
      case h => HField(h, skipped)
  }

  function NextHeading(cfg: Config, m: M, s: seq<byte>): Heading
    requires PendingOk(m.pending)
  {
    if m.pending == Nothing then Heading1(cfg, Depth(m), s, 0)
    else
      match SkipPending(m, s)
      case Wait(w, used) => HWait(w.pending, used)
      case Stop(_, _) => HBad
      case Next(w, used) => if used > |s| then HBad else Heading1(cfg, Depth(m), s[used..], used)
  }

  /** How a call of the header walk ends. */
  datatype Walked = Header(wt: nat) | AtEnd | Suspended | Malformed

  /** Dropping varints byte by byte, `bytes` of them gone already. */
  lemma DropStep(buf: seq<byte>, p: nat, left: nat, vbytes: nat)
    requires p < |buf| && left > 0 && vbytes < VARINT_MAX
    ensures
      var d := DropVarints(buf[p..], left, vbytes);
      if vbytes + 1 == VARINT_MAX && buf[p] > 1 then d == (left, vbytes, 0, Bad)
      else
        var (l, v) := if vbytes + 1 == VARINT_MAX || buf[p] < 0x80 then (left - 1, 0) else (left, vbytes + 1);
        var e := DropVarints(buf[p + 1..], l, v);
        d == (e.0, e.1, e.2 + 1, e.3)
  {
    assert buf[p..][1..] == buf[p + 1..];
  }

  /** What every header the walk accepts guarantees, against the state it is met in. */
  predicate HeadFits(cfg: Config, m: M, h: Head) {
    && h.Head? && 0 < h.used && h.wt < 8 && h.id <= ID_MAX
    && !m.phase.Take? && m.pending == Nothing
    && Ok(cfg, m.(pending := h.pending))
    && (h.wt == SEQUENCE_START ==> Machine.Depth(m) < MAX_DEPTH)
    && (h.wt == SEQUENCE_END ==> Machine.Depth(m) > 0)
    && (h.wt >= SEQUENCE_START ==> h.pending == Nothing)
    && (h.wt < SEQUENCE_START ==> Announced(Bare(h.pending)) && TagOf(Bare(h.pending)) == (h.wt, h.sub))
  }

  /** Where the machine is behind a header, `None` where the header ends the decode. */
  function Behind(cfg: Config, m: M, h: Head): Turn
    requires HeadFits(cfg, m, h)
  {
    if m.phase.Skip? then Go(SkipHead(m, m.phase.nest, h.wt, h.pending))
    else Dispatch(cfg, m.(pending := h.pending), h.wt, h.id, h.sub)
  }

  /** What a run comes to behind a header. */
  predicate RunsOn(cfg: Config, m: M, h: Head, s: seq<byte>, k: nat, whole: Out)
    requires HeadFits(cfg, m, h) && k <= |s|
  {
    var t := Behind(cfg, m, h);
    if t.Go? then Ok(cfg, t.m) && whole == Later(Run(cfg, t.m, s[k..]), k)
    else whole == Stop(t.m, t.why)
  }

  /** The header walk's call, in terms of the run it belongs to. */
  predicate HeadingRuns(cfg: Config, m: M, s: seq<byte>, h: Heading, whole: Out) {
    match h
    case HBad => whole.Stop? && whole.why.Invalid? && SameRemains(whole.m, m)
    case HWait(p, used) => used <= |s| && PendingOk(p) && whole == Wait(m.(pending := p), used)
    case HField(head, skipped) =>
      && head.Head? && HeadFits(cfg, m.(pending := Nothing), head)
      && skipped + head.used <= |s|
      && RunsOn(cfg, m.(pending := Nothing), head, s, skipped + head.used, whole)
  }

  lemma ParsedFits(cfg: Config, m: M, s: seq<byte>)
    requires Ok(cfg, m) && !m.phase.Take? && m.pending == Nothing
    ensures
      var h := ParseHead(cfg, s, Machine.Depth(m));
      h.Head? ==> HeadFits(cfg, m, h) && h.used <= |s|
  {
    hide ParseHead;
    ParseHeadBounds(cfg, s, Machine.Depth(m));
  }

  lemma Heading1Runs(cfg: Config, m: M, s: seq<byte>)
    requires Ok(cfg, m) && !m.phase.Take? && m.pending == Nothing
    ensures HeadingRuns(cfg, m, s, Heading1(cfg, Machine.Depth(m), s, 0), Run(cfg, m, s))
  {
    hide ParseHead, Dispatch, Ok, Run;
    Unfold(cfg, m, s);
    ParsedFits(cfg, m, s);
    assert m.(pending := Nothing) == m;
  }

  lemma Heading1Shift(cfg: Config, depth: nat, s: seq<byte>, k: nat)
    ensures
      var h := Heading1(cfg, depth, s, 0);
      Heading1(cfg, depth, s, k) ==
      if h.HField? then HField(h.head, k) else if h.HWait? then HWait(h.pending, k) else HBad
  {
    hide ParseHead;
  }

  /** Every call of the header walk is the corresponding stretch of the run. */
  lemma NextHeadingRuns(cfg: Config, m: M, s: seq<byte>)
    requires Ok(cfg, m) && !m.phase.Take?
    ensures HeadingRuns(cfg, m, s, NextHeading(cfg, m, s), Run(cfg, m, s))
  {
    hide Heading1, HeadingRuns;
    if m.pending == Nothing {
      Heading1Runs(cfg, m, s);
    } else {
      SkippedFirst(cfg, m, s);
    }
  }

  lemma StepSkips(cfg: Config, m: M, s: seq<byte>)
    requires Ok(cfg, m) && !m.phase.Take? && m.pending != Nothing
    ensures
      var o := SkipPending(m, s);
      && o.m == m.(pending := o.m.pending)
      && PendingOk(o.m.pending)
      && (o.Next? ==> o.m.pending == Nothing && Ok(cfg, o.m) && o.used <= |s| &&
                      Run(cfg, m, s) == Later(Run(cfg, o.m, s[o.used..]), o.used))
      && (o.Wait? ==> o.used <= |s|)
      && (o.Stop? ==> o.why.Invalid?)
      && (!o.Next? ==> Run(cfg, m, s) == o)
  {
    hide Run;
    SkipPendingSound(cfg, m, s);
    Unfold(cfg, m, s);
    assert Step(cfg, m, s) == SkipPending(m, s);
  }

  lemma SkippedFirst(cfg: Config, m: M, s: seq<byte>)
    requires Ok(cfg, m) && !m.phase.Take? && m.pending != Nothing
    ensures HeadingRuns(cfg, m, s, NextHeading(cfg, m, s), Run(cfg, m, s))
  {
    StepSkips(cfg, m, s);
    hide SkipPending, Run, Heading1, Behind, HeadFits, Ok;
    var o := SkipPending(m, s);
    if o.Next? {
      FirstSkipped(cfg, m, o.m, s, s[o.used..], o.used);
    }
  }

  lemma FirstSkipped(cfg: Config, m: M, q: M, s: seq<byte>, t: seq<byte>, used: nat)
    requires Ok(cfg, m) && Ok(cfg, q) && !m.phase.Take? && m.pending != Nothing && q == m.(pending := Nothing)
    requires used <= |s| && t == s[used..]
    requires SkipPending(m, s) == Next(q, used)
    requires Run(cfg, m, s) == Later(Run(cfg, q, t), used)
    ensures HeadingRuns(cfg, m, s, NextHeading(cfg, m, s), Run(cfg, m, s))
  {
    hide SkipPending, Run, Heading1, HeadingRuns, Ok;
    var h := Heading1(cfg, Machine.Depth(m), t, 0);
    assert Machine.Depth(q) == Machine.Depth(m);
    Heading1Runs(cfg, q, t);
    Heading1Shift(cfg, Machine.Depth(m), t, used);
    Heading1Starts(cfg, Machine.Depth(m), t);
    ShiftRuns(cfg, m, q, s, t, used, h, Run(cfg, q, t));
  }

  lemma Heading1Starts(cfg: Config, depth: nat, s: seq<byte>)
    ensures
      var h := Heading1(cfg, depth, s, 0);
      (h.HField? ==> h.skipped == 0) && (h.HWait? ==> h.used == 0)
  {
    hide ParseHead;
  }

  function Shifted(h: Heading, k: nat): Heading {
    if h.HField? then HField(h.head, k) else if h.HWait? then HWait(h.pending, k) else HBad
  }

  lemma ShiftField(cfg: Config, q: M, h: Head, s: seq<byte>, t: seq<byte>, used: nat, whole: Out, inner: Out)
    requires h.Head? && HeadFits(cfg, q, h)
    requires used <= |s| && t == s[used..] && h.used <= |t| && whole == Later(inner, used)
    requires RunsOn(cfg, q, h, t, h.used, inner)
    ensures RunsOn(cfg, q, h, s, used + h.used, whole)
  {
    hide Run, HeadFits, Behind, Ok;
    assert t[h.used..] == s[used + h.used..];
  }

  lemma ShiftRuns(cfg: Config, m: M, q: M, s: seq<byte>, t: seq<byte>, used: nat, h: Heading, inner: Out)
    requires q == m.(pending := Nothing) && used <= |s| && t == s[used..]
    requires HeadingRuns(cfg, q, t, h, inner) && (h.HField? ==> h.skipped == 0) && (h.HWait? ==> h.used == 0)
    ensures HeadingRuns(cfg, m, s, Shifted(h, used), Later(inner, used))
  {
    hide Run, HeadFits, RunsOn;
    assert q.(pending := Nothing) == q;
    match h
    case HField(head, _) => ShiftField(cfg, q, head, s, t, used, Later(inner, used), inner);
    case _ =>
  }

  /** The target run, met `k` bytes before this point, seen through one call of the header walk. */
  predicate Round(cfg: Config, m: M, s: seq<byte>, k: int, whole: Out, h: Heading)
    requires Ok(cfg, m) && !m.phase.Take? && k >= 0
  {
    match h
    case HBad => whole.Stop? && whole.why.Invalid? && SameRemains(whole.m, m)
    case HWait(p, used) => used <= |s| && PendingOk(p) && whole == Wait(m.(pending := p), used + k)
    case HField(head, skipped) =>
      && head.Head? && HeadFits(cfg, m.(pending := Nothing), head)
      && skipped + head.used <= |s|
      && var t := Behind(cfg, m.(pending := Nothing), head);
         var used := skipped + head.used;
         if t.Go? then Leads(cfg, t.m, s[used..], k + used, whole) else whole == Stop(t.m, t.why)
  }

  lemma RoundRuns(cfg: Config, m: M, s: seq<byte>, k: int, whole: Out)
    requires Leads(cfg, m, s, k, whole) && !m.phase.Take?
    ensures PendingOk(m.pending)
    ensures Round(cfg, m, s, k, whole, NextHeading(cfg, m, s))
  {
    assert PendingOk(m.pending);
    hide Run, HeadFits, Behind, Ok, NextHeading;
    NextHeadingRuns(cfg, m, s);
  }

  lemma LeadsFromHere(cfg: Config, m: M, s: seq<byte>)
    requires Ok(cfg, m)
    ensures Leads(cfg, m, s, 0, Run(cfg, m, s))
  {
    hide Run, Ok;
  }

  /** What answers to the rest of a run answers to the run. */
  lemma FromRest(cfg: Config, m: M, s: seq<byte>, k: int, whole: Out)
    requires Leads(cfg, m, s, k, whole)
    ensures Ok(cfg, m)
    ensures forall d, c, j :: Answers(Run(cfg, m, s), d, c, j) ==> Answers(whole, d, c, k + j)
    ensures forall c, t, j :: Leads(cfg, c, t, j, Run(cfg, m, s)) ==> Leads(cfg, c, t, k + j, whole)
  {
    hide Run, Ok;
  }

  lemma BrokeInAnyPhase(whole: Out, d: Drive, m: M, c: M, k: int)
    requires d.Broke? && SameRemains(m, c)
    ensures Answers(whole, d, m, k) ==> Answers(whole, d, c, k)
  {
  }

  /** A header the walk accepted between fields, ready to be acted on. */
  lemma WalkRound(cfg: Config, m: M, s: seq<byte>, k: int, whole: Out, head: Head, skipped: nat)
    requires Ok(cfg, m) && m.phase == Walk && k >= 0 && Round(cfg, m, s, k, whole, HField(head, skipped))
    ensures head.Head? && 0 < head.used && skipped + head.used <= |s|
    ensures Ok(cfg, m.(pending := head.pending)) && head.wt < 8 && head.id <= ID_MAX
    ensures head.wt == SEQUENCE_START ==> |m.scopes| < MAX_DEPTH
    ensures head.wt == SEQUENCE_END ==> |m.scopes| > 0
    ensures head.wt >= SEQUENCE_START ==> head.pending == Nothing
    ensures head.wt < SEQUENCE_START ==> Announced(Bare(head.pending))
    ensures head.wt < SEQUENCE_START ==> TagOf(Bare(head.pending)) == (head.wt, head.sub)
    ensures
      var t := Dispatch(cfg, m.(pending := head.pending), head.wt, head.id, head.sub);
      if t.Go? then Leads(cfg, t.m, s[skipped + head.used..], k + skipped + head.used, whole)
      else whole == Stop(t.m, t.why)
  {
    hide Run, Ok, Leads, Dispatch;
  }

  /** An attempt at a value, seen in the run it belongs to. */
  lemma TakeRuns(cfg: Config, m: M, s: seq<byte>, k: int, whole: Out, t: Took, c: M, used: int)
    requires Leads(cfg, m, s, k, whole) && m.phase.Take? && Follows(Step(cfg, m, s), t, c, used)
    ensures t.Done? ==> 0 <= used <= |s| && Leads(cfg, c, s[used..], k + used, whole)
    ensures t.NotYet? ==> used == 0 && Ok(cfg, c) && Chunks.Suspended(cfg, c) && whole == Wait(c, k)
    ensures t.Wrong? ==> whole.Stop? && whole.why == t.why && SameRemains(c, whole.m)
  {
    hide Run, Ok;
    Unfold(cfg, m, s);
    TakeWaitsInPlace(cfg, m, s);
    if t.NotYet? {
      Chunks.AttemptSuspends(cfg, m, s);
    }
  }

  lemma TakeWaitsInPlace(cfg: Config, m: M, s: seq<byte>)
    requires Ok(cfg, m) && m.phase.Take?
    ensures Step(cfg, m, s).Wait? ==> Step(cfg, m, s).used == 0
  {
    hide TakeMapped, Visit;
  }

  function Nesting(wt: nat): int {
    if wt == SEQUENCE_START then 1 else if wt == SEQUENCE_END then -1 else 0
  }

  /** How many sequences are open behind a header. */
  lemma DispatchDepth(cfg: Config, m: M, wt: nat, id: nat, sub: int)
    requires Ok(cfg, m) && m.phase == Walk && wt < 8 && id <= ID_MAX
    requires wt == SEQUENCE_END ==> m.scopes != []
    requires wt < SEQUENCE_START ==> Announced(Bare(m.pending))
    ensures
      var t := Dispatch(cfg, m, wt, id, sub);
      t.Go? ==> Machine.Depth(t.m) == Machine.Depth(m) + Nesting(wt)
  {
    hide Lookup, Select, Settle, ScopesOk, TablesOk;
  }

  lemma TakeOk(cfg: Config, m: M, s: seq<byte>, k: int, whole: Out)
    requires Leads(cfg, m, s, k, whole) && m.phase.Take?
    ensures PendingOk(m.pending) && Announced(Bare(m.pending)) && (m.phase.row.None? ==> m.visitor.Some?)
    ensures m.phase.row.Some? ==>
      Chunks.Takable(m, m.phase.row.value) && Step(cfg, m, s) == TakeMapped(m, m.phase.row.value, s)
    ensures m.phase.row.None? ==> Step(cfg, m, s) == Visit(cfg, m, m.phase.id, s)
  {
    hide Run, TakeMapped, Visit, SlotsOk, ScopesOk, TablesOk;
  }

  lemma LeadsOk(cfg: Config, m: M, s: seq<byte>, k: int, whole: Out)
    requires Leads(cfg, m, s, k, whole)
    ensures Ok(cfg, m) && PendingOk(m.pending)
  {
  }

  /** Where the run waits, the machine is sound. */
  lemma WaitsOk(cfg: Config, m: M, s: seq<byte>, k: int, whole: Out, h: Heading)
    requires Leads(cfg, m, s, k, whole) && !m.phase.Take? && Round(cfg, m, s, k, whole, h)
    ensures h.HWait? ==> Ok(cfg, m.(pending := h.pending))
  {
    hide Ok;
  }

  lemma NotReadyWaits(cfg: Config, m: M, s: seq<byte>)
    requires Ok(cfg, m) && Chunks.Suspended(cfg, m) && |s| < Chunks.Needs(m.pending)
    ensures Run(cfg, m, s) == Wait(m, 0)
  {
    hide Step, Ok;
    Chunks.NotReady(cfg, m, s);
    Unfold(cfg, m, s);
  }

  lemma Further(buf: seq<byte>, p: nat, used: nat)
    requires p + used <= |buf|
    ensures buf[p..][used..] == buf[p + used..]
  {
  }

  /** A header met while skipping: the depth is all it changes. */
  lemma SkipRound(cfg: Config, m: M, s: seq<byte>, k: int, whole: Out, head: Head, skipped: nat)
    requires Ok(cfg, m) && m.phase.Skip? && k >= 0 && Round(cfg, m, s, k, whole, HField(head, skipped))
    ensures head.Head? && 0 < head.used && skipped + head.used <= |s|
    ensures head.wt == SEQUENCE_START || head.wt == SEQUENCE_END ==> head.pending == Nothing
    ensures Leads(cfg, SkipHead(m.(pending := Nothing), m.phase.nest, head.wt, head.pending),
                  s[skipped + head.used..], k + skipped + head.used, whole)
  {
    hide Run, Ok;
  }

  // ----- taking values ------------------------------------------------------------

  /** How an attempt at a value ends. */
  datatype Took = Done | NotYet | Wrong(why: Why)

  /** What the driver was doing when the bytes ran out. */
  datatype Resume = RNone | RSkip | RVisit

  /**
   What a feed reports: the status of the bytes so far, a chunk that could not
   be put behind the bytes held, or a tail that could not be kept.
   */
  datatype Fed = Fed(status: Chunks.Status) | NoRoom | TailLost

  /** Does a decode hold more bytes than a reassembly buffer of this size? */
  predicate Overflows(d: Chunks.Decode, size: nat) {
    d.Live? && |d.held| > size
  }

  /** How the driver comes out of a feed. */
  datatype Drive = Finished | Starved | Broke(why: Why)

  /** Indices of the scopes a child handler was named for. */
  function Kids(scopes: seq<Frame>): (ks: seq<nat>)
    ensures |ks| <= |scopes| && forall j | 0 <= j < |ks| :: ks[j] < |scopes|
  {
    if scopes == [] then []
    else
      var top := |scopes| - 1;
      Kids(scopes[..top]) + if scopes[top].opener.ByChild? then [top] else []
  }

  /** The table stack: the table each open scope will bring back; unused without a table. */
  predicate StackOk(tabled: bool, scopes: seq<Frame>, bstack: seq<Option<nat>>, bsp: nat) {
    && |bstack| == MAX_DEPTH && |scopes| <= MAX_DEPTH
    && bsp == (if tabled then |scopes| else 0)
    && forall i | 0 <= i < bsp :: bstack[i] == scopes[i].table
  }

  lemma StackPush(tabled: bool, scopes: seq<Frame>, bstack: seq<Option<nat>>, bsp: nat, f: Frame)
    requires StackOk(tabled, scopes, bstack, bsp) && |scopes| < MAX_DEPTH
    ensures bsp < MAX_DEPTH
    ensures if tabled then StackOk(tabled, scopes + [f], bstack[bsp := f.table], bsp + 1)
            else StackOk(tabled, scopes + [f], bstack, bsp)
  {
  }

  lemma StackPop(tabled: bool, scopes: seq<Frame>, bstack: seq<Option<nat>>, bsp: nat)
    requires StackOk(tabled, scopes, bstack, bsp) && scopes != []
    ensures bsp > 0 <==> tabled
    ensures
      var outer := scopes[..|scopes| - 1];
      if tabled then
        bsp - 1 < |bstack| && bstack[bsp - 1] == scopes[|scopes| - 1].table &&
        StackOk(tabled, outer, bstack[bsp - 1 := None], bsp - 1)
      else StackOk(tabled, outer, bstack, bsp)
  {
  }

  /** The handler stack: the handler each child scope suspended, and the depth it closes back to. */
  predicate KidsOk(scopes: seq<Frame>, vstack: seq<Option<int>>, vdepth: seq<nat>, vsp: nat) {
    && |vstack| == MAX_DEPTH && |vdepth| == MAX_DEPTH && |scopes| <= MAX_DEPTH
    && vsp == |Kids(scopes)|
    && forall j | 0 <= j < vsp :: vdepth[j] == Kids(scopes)[j] && vstack[j] == scopes[Kids(scopes)[j]].visitor
  }

  lemma KidsPush(scopes: seq<Frame>, vstack: seq<Option<int>>, vdepth: seq<nat>, vsp: nat, f: Frame)
    requires KidsOk(scopes, vstack, vdepth, vsp) && |scopes| < MAX_DEPTH
    ensures vsp < MAX_DEPTH
    ensures if f.opener.ByChild? then
              KidsOk(scopes + [f], vstack[vsp := f.visitor], vdepth[vsp := |scopes|], vsp + 1)
            else KidsOk(scopes + [f], vstack, vdepth, vsp)
  {
    assert (scopes + [f])[..|scopes|] == scopes;
    assert Kids(scopes + [f]) == Kids(scopes) + if f.opener.ByChild? then [|scopes|] else [];
  }

  /** A child handler is popped exactly at its own scope's end. */
  lemma KidsPop(scopes: seq<Frame>, vstack: seq<Option<int>>, vdepth: seq<nat>, vsp: nat)
    requires KidsOk(scopes, vstack, vdepth, vsp) && scopes != []
    ensures vsp <= MAX_DEPTH
    ensures
      var f, outer := scopes[|scopes| - 1], scopes[..|scopes| - 1];
      && (f.opener.ByChild? <==> vsp > 0 && vdepth[vsp - 1] == |scopes| - 1)
      && (if f.opener.ByChild? then
            vstack[vsp - 1] == f.visitor && KidsOk(outer, vstack, vdepth, vsp - 1)
          else KidsOk(outer, vstack, vdepth, vsp))
  {
    var f, outer := scopes[|scopes| - 1], scopes[..|scopes| - 1];
    assert Kids(scopes) == Kids(outer) + if f.opener.ByChild? then [|scopes| - 1] else [];
    assert forall j | 0 <= j < |Kids(outer)| :: Kids(scopes)[j] == Kids(outer)[j];
  }

  /** Where a header sends the driver next. */
  datatype Next = Walking | Skipping | Taking(row: Option<Row>) | Ends(why: Why)

  /** The target run, with `k` of its bytes behind us. */
  predicate Leads(cfg: Config, m: M, s: seq<byte>, k: int, whole: Out) {
    k >= 0 && Ok(cfg, m) && whole == Later(Run(cfg, m, s), k)
  }

  /** How the driver's state answers to the whole run. */
  predicate Answers(whole: Out, d: Drive, m: M, k: int) {
    match whole
    case Wait(n, used) => !d.Broke? && m == n && k == used
    case Stop(n, why) => d == Broke(why) && SameRemains(m, n)
    case Next(_, _) => false
  }

  /** Only what the caller can see outlives the end of a decode. */
  predicate SameRemains(a: M, b: M) {
    a.words == b.words && a.objects == b.objects && a.log == b.log
  }

  /** The fields say what the machine says: `c` after `k` more bytes. */
  predicate Follows(o: Out, t: Took, c: M, k: int) {
    match o
    case Next(m, used) => t.Done? && c == m && k == used
    case Wait(m, used) => t.NotYet? && c == m && k == used
    case Stop(m, why) => t == Wrong(why) && SameRemains(c, m)
  }

  lemma ResetWordsStep(words: seq<word>, rs: seq<(nat, word)>, i: nat)
    requires i < |rs| && forall j | 0 <= j < |rs| :: rs[j].0 < |words|
    ensures ResetWords(words, rs[i..]) == ResetWords(words[rs[i].0 := rs[i].1], rs[i + 1..])
  {
    assert rs[i..][1..] == rs[i + 1..];
  }

  lemma ResetObjectsStep(objects: seq<Obj>, rs: seq<(nat, Obj)>, i: nat)
    requires i < |rs| && forall j | 0 <= j < |rs| :: rs[j].0 < |objects|
    ensures ResetObjects(objects, rs[i..]) == ResetObjects(objects[rs[i].0 := rs[i].1], rs[i + 1..])
  {
    assert rs[i..][1..] == rs[i + 1..];
  }

  lemma ResetIntoStep(objects: seq<Obj>, rs: seq<(nat, seq<byte>)>, i: nat)
    requires i < |rs| && forall j | 0 <= j < |rs| :: rs[j].0 < |objects|
    ensures
      var o := CopyInto(objects[rs[i].0], rs[i].1);
      ResetInto(objects, rs[i..]) ==
      if o.None? then (objects, false) else ResetInto(objects[rs[i].0 := o.value], rs[i + 1..])
  {
    assert rs[i..][1..] == rs[i + 1..];
  }

  class Decoder {
    const cfg: Config
    const words: array<word>
    const rbuf: array<byte>
    var objects: seq<Obj>

    // The bytes being walked: the chunk itself, or the caller's buffer in place.
    var chunk: seq<byte>
    var inPlace: bool
    var n: nat
    var pos: nat
    var keep: nat
    var rstart: nat
    var rend: nat

    var pending: Pending
    var depth: nat
    var curId: nat
    var curSub: int
    var log: seq<Call>

    // The current table, the handler, and the stacks that remember the enclosing ones.
    var table: Option<nat>
    var bstack: seq<Option<nat>>
    var bsp: nat
    var visitor: Option<int>
    var vstack: seq<Option<int>>
    var vdepth: seq<nat>
    var vsp: nat
    ghost var scopes: seq<Frame>

    // What to take up when the next feed arrives.
    var resume: Resume
    var resumeRow: Option<Row>
    var skipDepth: int

    // The two latches, and what the model adds to them: storage of the caller's
    // that was refused, and a tail that did not fit the reassembly buffer.
    var invalid: bool
    var limited: bool
    ghost var refused: bool
    ghost var lost: bool

    /** A decoder over the caller's storage, with everything it may ever allocate in place. */
    constructor (cfg: Config, words: array<word>, objects: seq<Obj>, rbuf: array<byte>)
      requires ConfigOk(cfg, words.Length, |objects|)
      ensures this.cfg == cfg && this.words == words && this.rbuf == rbuf
      ensures Ready() && D() == Chunks.Live(Start(cfg, words[..], objects), [])
    {
      this.cfg, this.words, this.objects, this.rbuf := cfg, words, objects, rbuf;
      chunk, inPlace, n, pos, keep, rstart, rend := [], false, 0, 0, 0, 0, 0;
      pending, depth, curId, curSub, log := Nothing, 0, 0, -1, [];
      table := if cfg.tabled then Some(0) else None;
      visitor := cfg.visitor;
      bstack, bsp := seq(MAX_DEPTH, _ => None), 0;
      vstack, vdepth, vsp := seq(MAX_DEPTH, _ => None), seq(MAX_DEPTH, _ => 0), 0;
      scopes := [];
      capped := cfg.arrayCap < ARRAY_MAX || cfg.textCap < FIXLEN_MAX || cfg.blobCap < FIXLEN_MAX;
      resume, resumeRow, skipDepth := RNone, None, -1;
      invalid, limited, refused, lost := false, false, false, false;
    }

    /** The bytes the cursor moves over. */
    function Buffered(): seq<byte>
      reads this`chunk, this`inPlace, this`n, rbuf
    {
      if inPlace then rbuf[..if n <= rbuf.Length then n else rbuf.Length] else chunk
    }

    ghost predicate CursorOk()
      reads this`chunk, this`inPlace, this`n, this`pos, this`keep, rbuf
    {
      pos <= n == |Buffered()| && keep <= n
    }

    ghost function Rest(): seq<byte>
      requires CursorOk()
      reads this`chunk, this`inPlace, this`n, this`pos, this`keep, rbuf
    {
      Buffered()[pos..]
    }

    /** One varint; running out of bytes rewinds to the start of the call in flight. */
    method Varint() returns (r: Read)
      requires CursorOk()
      modifies this`pos
      ensures CursorOk() && r == ReadVarint(old(Rest()))
      ensures r.Got? ==> pos == old(pos) + r.len
      ensures r.More? ==> pos == keep
      ensures r.Overlong? ==> pos == old(pos)
    {
      hide VarintFrom, Shl, Lift;
      var buf := Buffered();
      var start, p := pos, pos;
      if p >= n {
        LiftEmpty(buf, p, 0, 0);
        pos := keep;
        return More;
      }
      LiftStart(buf, start);
      var b := buf[p];
      p := p + 1;
      if b < 0x80 {
        pos := p;
        return Got(b, 1);
      }
      var result: nat := b as int % 0x80;
      var shift := 7;
      ghost var k := 1;
      while shift < 63
        invariant shift == 7 * k && 1 <= k <= 9 && p == start + k && p <= n && pos == start
        invariant ReadVarint(buf[start..]) == Lift(result, k, VarintFrom(buf[p..], k))
      {
        if p >= n {
          LiftEmpty(buf, p, k, result);
          pos := keep;
          return More;
        }
        LiftStep(buf, p, k, result);
        b := buf[p];
        p := p + 1;
        result := result + Shl(b as int % 0x80, shift);
        if b < 0x80 {
          pos := p;
          return Got(result, p - start);
        }
        shift, k := shift + 7, k + 1;
      }
      if p >= n {
        LiftEmpty(buf, p, k, result);
        pos := keep;
        return More;
      }
      LiftLast(buf, p, result);
      b := buf[p];
      p := p + 1;
      if b > 0x01 {
        return Overlong;
      }
      pos := p;
      return Got(result + Shl(b, 63), p - start);
    }

    /** The varint of one element: one byte, the unchecked window, or the careful read near the end. */
    method ElementVarint(buf: seq<byte>, p: nat) returns (r: Read)
      requires CursorOk() && buf == Buffered() && p <= n
      modifies this`pos
      ensures CursorOk() && r == ReadVarint(buf[p..])
      ensures r.More? ==> pos == keep
    {
      if p >= n {
        LiftEmpty(buf, p, 0, 0);
        pos := keep;
        return More;
      }
      OneByte(buf, p);
      if buf[p] < 0x80 {
        return Got(buf[p], 1);
      }
      if n - (p + 1) >= 9 {
        r := ReadWindow(buf, p);
      } else {
        pos := p;
        r := Varint();
      }
    }

    /**
     `count` varints in one loop.  With `into` they go to `words[base..]` as they
     are decoded, otherwise to the list returned.
     */
    method ReadVarints(count: nat, lo: Option<int>, hi: Option<int>, zigzag: bool, into: bool, base: nat)
      returns (out: seq<int>, end: Verdict)
      requires CursorOk() && (into ==> base + count <= words.Length)
      modifies this`pos, words
      ensures CursorOk()
      ensures
        var e := ReadElems(old(Rest()), count, zigzag, Lo(lo), Hi(hi));
        && end == e.end && |e.values| <= count
        && (end.Through? ==> pos == old(pos) + e.used)
        && (end.Short? ==> pos == keep)
        && (into ==> words[..] == Fill(old(words[..]), base, Slots(e.values)))
        && (!into ==> out == e.values && words[..] == old(words[..]))
    {
      hide ReadVarint, ReadElems, Slots, Fill;
      var buf := Buffered();
      var p := pos;
      var check := CheckFast(lo, hi, zigzag);
      var bounded := lo.Some? || hi.Some?;
      out := [];
      ghost var was, done := words[..], [];
      ghost var start := pos;
      ghost var target := ReadElems(buf[pos..], count, zigzag, Lo(lo), Hi(hi));
      JoinStart(target);
      FillNothing(was, base);
      for i := 0 to count
        invariant CursorOk() && Buffered() == buf && start <= p <= n && |done| == i
        invariant target == Join(done, p - start, ReadElems(buf[p..], count - i, zigzag, Lo(lo), Hi(hi)))
        invariant into ==> words[..] == Fill(was, base, Slots(done))
        invariant !into ==> out == done && words[..] == was
      {
        JoinStep(buf, p, count - i, zigzag, Lo(lo), Hi(hi), done, p - start);
        var r := ElementVarint(buf, p);
        if !r.Got? {
          return out, if r.More? then Short else Bad;
        }
        var v := Cooked(zigzag, r.value);
        WidthTest(lo, hi, zigzag, r.value);
        if (if r.value < 0x80 then check else bounded) && (v < Lo(lo) || v > Hi(hi)) {
          return out, Bad;
        }
        if into {
          StoreElement(base, i, was, done, v);
        } else {
          out := out + [v];
        }
        done := done + [v];
        p := p + r.len;
      }
      JoinEnd(buf, p, zigzag, Lo(lo), Hi(hi), done, p - start);
      pos := p;
      return out, Through;
    }

    method StoreElement(base: nat, i: nat, ghost was: seq<word>, ghost done: seq<int>, v: int)
      requires |was| == words.Length && base + i < words.Length && |done| == i
      requires words[..] == Fill(was, base, Slots(done))
      modifies words
      ensures words[..] == Fill(was, base, Slots(done + [v]))
    {
      FillStep(was, base, done, v);
      ghost var before := words[..];
      words[base + i] := Slot(v);
      Stored(before, words[..], base + i, Slot(v));
    }

    // ----- skipping -----------------------------------------------------------------

    /** Drops what this chunk holds of the remainder; nothing is rewound. */
    method DrainDiscard() returns (end: Verdict)
      requires CursorOk() && pending.Discard? && PendingOk(pending)
      modifies this`pos, this`pending
      ensures CursorOk()
      ensures
        var p := old(pending);
        var d := Drain(old(Rest()), p.nbytes, p.nvarints, p.vbytes);
        && end == d.end
        && (end.Through? ==> pending == Nothing && pos == old(pos) + d.used)
        && (end.Short? ==> pending == d.rest && pos == old(pos) + d.used)
      ensures pos >= old(pos) && (end.Short? ==> pending.Discard?)
    {
      hide DropVarints;
      var buf := Buffered();
      var nbytes: nat, left: nat, vbytes: nat := pending.nbytes, pending.nvarints, pending.vbytes;
      var have := n - pos;
      if have < nbytes {
        pending := Discard(nbytes - have, left, vbytes);
        pos := n;
        return Short;
      }
      pos := pos + nbytes;
      assert buf[old(pos)..][nbytes..] == buf[pos..];
      var p := pos;
      ghost var target := DropVarints(buf[p..], left, vbytes);
      while left > 0
        invariant CursorOk() && pos <= p <= n && vbytes < VARINT_MAX && pos == old(pos) + nbytes
        invariant target == ShiftDrop(DropVarints(buf[p..], left, vbytes), p - pos)
        decreases n - p
      {
        if p >= n {
          DropNothing(buf, p, left, vbytes);
          pending := Discard(0, left, vbytes);
          pos := p;
          return Short;
        }
        DropStep(buf, p, left, vbytes);
        var b := buf[p];
        p := p + 1;
        vbytes := vbytes + 1;
        if vbytes == VARINT_MAX {
          if b > 0x01 {
            return Bad;
          }
          left, vbytes := left - 1, 0;
        } else if b < 0x80 {
          left, vbytes := left - 1, 0;
        }
      }
      DropNothing(buf, p, left, vbytes);
      pos := p;
      pending := Nothing;
      return Through;
    }

    /** Discards the announced value; what is left of it when the bytes run out is only a count. */
    method SkipPending(ghost m: M) returns (end: Verdict)
      requires CursorOk() && PendingOk(pending) && pending != Nothing && keep == pos
      requires m.pending == pending
      modifies this`pos, this`pending
      ensures CursorOk() && pos >= old(pos)
      ensures end.Short? ==> pending != Nothing
      ensures end.Through? ==> pending == Nothing
      ensures
        match Machine.SkipPending(m, old(Rest()))
        case Next(w, used) => end.Through? && pending == w.pending && pos == old(pos) + used
        case Wait(w, used) => end.Short? && pending == w.pending && pos == old(pos) + used
        case Stop(_, _) => end.Bad?
    {
      hide Drain, ReadVarint;
      if pending.Discard? {
        end := DrainDiscard();
        return;
      }
      var bare := Bare(pending);
      if bare.Scalar? {
        var r := Varint();
        match r {
          case Got(_, _) => pending := Nothing; return Through;
          case More => return Short;
          case Overlong => return Bad;
        }
      }
      pending := Discard(Extent(bare).0, Extent(bare).1, 0);
      end := DrainDiscard();
    }

    // ----- the header walk ------------------------------------------------------------

    /** Is any cap tighter than the ceiling the format enforces anyway? */
    const capped: bool

    /** One or two bytes inline, anything longer through `Varint`. */
    method ShortVarint() returns (r: Read)
      requires CursorOk()
      modifies this`pos
      ensures CursorOk() && r == ReadVarint(old(Rest()))
      ensures r.Got? ==> pos == old(pos) + r.len
      ensures r.More? ==> pos == keep
    {
      var buf, p := Buffered(), pos;
      if p < n && buf[p] < 0x80 {
        OneByte(buf, p);
        pos := p + 1;
        return Got(buf[p], 1);
      }
      if p + 1 < n && buf[p + 1] < 0x80 {
        TwoBytes(buf, p);
        pos := p + 2;
        return Got(buf[p] as int % 0x80 + 128 * (buf[p + 1] as int), 2);
      }
      r := Varint();
    }

    /** The length word of a fixlen field. */
    method FixlenWord() returns (h: Head)
      requires CursorOk()
      requires capped <==> cfg.arrayCap < ARRAY_MAX || cfg.textCap < FIXLEN_MAX || cfg.blobCap < FIXLEN_MAX
      modifies this`pos
      ensures CursorOk() && h == FixlenHead(cfg, curId, old(Rest()))
      ensures h.Head? ==> pos == old(pos) + h.used
      ensures h.HeadShort? ==> pos == keep
    {
      hide ReadVarint;
      var r := ShortVarint();
      match r {
        case More => return HeadShort;
        case Overlong => return HeadBad;
        case Got(word, used) =>
          var len, st := word / 8, word % 8;
          if st >= STRING {
            if st > BLOB || len > FIXLEN_MAX {
              return HeadBad;
            }
          } else if st == FP32 {
            if len != 4 {
              return HeadBad;
            }
          } else if len != 8 {
            return HeadBad;
          }
          var p := Payload(st, len);
          if capped {
            if st == STRING {
              if len > cfg.textCap {
                p := Limit(p);
              }
            } else if st == BLOB && len > cfg.blobCap {
              p := Limit(p);
            }
          }
          return Head(FIXLEN, curId, st, p, used);
      }
    }

    /** The count word of an integer array. */
    method CountWord(signed: bool) returns (h: Head)
      requires CursorOk()
      requires capped <==> cfg.arrayCap < ARRAY_MAX || cfg.textCap < FIXLEN_MAX || cfg.blobCap < FIXLEN_MAX
      modifies this`pos
      ensures CursorOk() && h == VArrayHead(cfg, curId, signed, old(Rest()))
      ensures h.Head? ==> pos == old(pos) + h.used
      ensures h.HeadShort? ==> pos == keep
    {
      hide ReadVarint;
      var r := Varint();
      match r {
        case More => return HeadShort;
        case Overlong => return HeadBad;
        case Got(count, used) =>
          if count > ARRAY_MAX {
            return HeadBad;
          }
          var p := VArray(signed, count);
          if capped && count > cfg.arrayCap {
            p := Limit(p);
          }
          return Head(if signed then ARRAY_SIGNED else ARRAY_UNSIGNED, curId, -1, p, used);
      }
    }

    /** The count and element words of a fixlen array, the latter there even when it is empty. */
    method ElementWords() returns (h: Head)
      requires CursorOk()
      requires capped <==> cfg.arrayCap < ARRAY_MAX || cfg.textCap < FIXLEN_MAX || cfg.blobCap < FIXLEN_MAX
      modifies this`pos
      ensures CursorOk() && h == FArrayHead(cfg, curId, old(Rest()))
      ensures h.Head? ==> pos == old(pos) + h.used
      ensures h.HeadShort? ==> pos == keep
    {
      hide ReadVarint;
      ghost var s := Rest();
      ReadVarintBounds(s);
      var r := Varint();
      if !r.Got? {
        return if r.More? then HeadShort else HeadBad;
      }
      if r.value > ARRAY_MAX {
        return HeadBad;
      }
      assert Rest() == s[r.len..];
      var w := Varint();
      if !w.Got? {
        return if w.More? then HeadShort else HeadBad;
      }
      var size, st := w.value / 8, w.value % 8;
      if st > FP64 || (st == FP32 && size != 4) || (st == FP64 && size != 8) {
        return HeadBad;
      }
      var p := FArray(st, r.value);
      if capped && r.value > cfg.arrayCap {
        p := Limit(p);
      }
      return Head(ARRAY_FIXLEN, curId, st, p, r.len + w.len);
    }

    /** What the wire type asks for behind the header word; a sequence marker steps the depth. */
    method Announce(wt: nat) returns (h: Head)
      requires CursorOk() && wt < 8
      requires capped <==> cfg.arrayCap < ARRAY_MAX || cfg.textCap < FIXLEN_MAX || cfg.blobCap < FIXLEN_MAX
      modifies this`pos, this`depth
      ensures CursorOk() && h == HeadTail(cfg, wt, curId, old(Rest()), old(depth))
      ensures h.Head? ==> pos == old(pos) + h.used
      ensures h.HeadShort? ==> pos == keep
      ensures depth == if h.Head? && wt == SEQUENCE_START then old(depth) + 1
                       else if h.Head? && wt == SEQUENCE_END then old(depth) - 1 else old(depth)
    {
      if wt == FIXLEN {
        h := FixlenWord();
      } else if wt < FIXLEN {
        h := Head(wt, curId, -1, Scalar(wt == SIGNED), 0);
      } else if wt == SEQUENCE_END {
        if depth == 0 {
          return HeadBad;
        }
        depth := depth - 1;
        h := Head(wt, curId, -1, Nothing, 0);
      } else if wt == SEQUENCE_START {
        if depth >= MAX_DEPTH {
          return HeadBad;
        }
        depth := depth + 1;
        h := Head(wt, curId, -1, Nothing, 0);
      } else if wt == ARRAY_UNSIGNED || wt == ARRAY_SIGNED {
        h := CountWord(wt == ARRAY_SIGNED);
      } else {
        h := ElementWords();
      }
    }

    /** Does the walk's state match what one heading says? */
    ghost predicate Walks(w: Walked, h: Heading, pos0: nat, depth0: nat)
      reads this
    {
      match h
      case HBad => w.Malformed?
      case HWait(p, used) =>
        && (w.AtEnd? || w.Suspended?) && pending == p && pos == pos0 + used && depth == depth0
        && (w.AtEnd? <==> p == Nothing && pos == n && depth == 0)
      case HField(h, skipped) =>
        && h.Head? && w == Walked.Header(h.wt) && pending == h.pending && curId == h.id && curSub == h.sub
        && pos == pos0 + skipped + h.used
        && depth == if h.wt == SEQUENCE_START then depth0 + 1
                    else if h.wt == SEQUENCE_END then depth0 - 1 else depth0
    }

    /** One header, from its first byte. */
    method ParseWire(ghost skipped: nat) returns (w: Walked)
      requires CursorOk() && pending == Nothing && keep == pos && skipped <= pos
      requires capped <==> cfg.arrayCap < ARRAY_MAX || cfg.textCap < FIXLEN_MAX || cfg.blobCap < FIXLEN_MAX
      modifies this`pos, this`pending, this`depth, this`curId, this`curSub
      ensures CursorOk()
      ensures Walks(w, Heading1(cfg, old(depth), old(Rest()), skipped), old(pos) - skipped, old(depth))
    {
      hide ReadVarint, HeadTail, PendingOk, Announced;
      ghost var t := Rest();
      if pos >= n {
        return if depth != 0 then Suspended else AtEnd;
      }
      ReadVarintBounds(t);
      var r := ShortVarint();
      if !r.Got? {
        return if r.More? then Suspended else Malformed;
      }
      var wt := r.value % 8;
      curId := r.value / 8;
      curSub := -1;
      if curId > ID_MAX {
        return Malformed;
      }
      assert Rest() == t[r.len..];
      var h := Announce(wt);
      if !h.Head? {
        return if h.HeadShort? then Suspended else Malformed;
      }
      HeadTailBounds(cfg, wt, curId, t[r.len..], old(depth));
      curSub, pending := h.sub, h.pending;
      return Walked.Header(wt);
    }

    /**
     Parses one field header, discarding the value still pending from the last.
     The skip commits before the header opens a transaction of its own.
     */
    method NextWire(ghost m: M) returns (w: Walked)
      requires CursorOk() && PendingOk(pending) && m.pending == pending && Machine.Depth(m) == depth
      requires capped <==> cfg.arrayCap < ARRAY_MAX || cfg.textCap < FIXLEN_MAX || cfg.blobCap < FIXLEN_MAX
      modifies this`pos, this`keep, this`pending, this`depth, this`curId, this`curSub
      ensures CursorOk()
      ensures Walks(w, NextHeading(cfg, m, old(Rest())), old(pos), old(depth))
    {
      hide Machine.SkipPending, Heading1, PendingOk, ReadVarint;
      keep := pos;
      ghost var s := Rest();
      if pending != Nothing {
        var end := SkipPending(m);
        if !end.Through? {
          return if end.Short? then Suspended else Malformed;
        }
        keep := pos;
        assert Rest() == s[pos - old(pos)..];
      }
      w := ParseWire(pos - old(pos));
    }

    // ----- taking values ------------------------------------------------------------

    /** The machine the fields stand for, in a given phase. */
    ghost function Core(phase: Phase): M
      reads this`pending, this`table, this`visitor, this`scopes, this`objects, this`log, words
    {
      M(phase, pending, table, visitor, scopes, words[..], objects, log)
    }

    method SetWord(at: nat, w: word)
      requires at < words.Length
      modifies words
      ensures words[..] == old(words[..])[at := w]
    {
      ghost var before := words[..];
      words[at] := w;
      Stored(before, words[..], at, w);
    }

    /** Replays the prepared lists of a re-selected option. */
    method ResetOption(row: Row) returns (fits: bool)
      requires ResetOk(row.reset, words.Length, |objects|)
      modifies this`objects, words
      ensures words[..] == ResetWords(old(words[..]), row.reset.words)
      ensures (objects, fits) == ResetInto(ResetObjects(old(objects), row.reset.objects), row.reset.into)
    {
      hide ResetWords, ResetObjects, ResetInto, CopyInto;
      var r := row.reset;
      ghost var target := ResetWords(words[..], r.words);
      assert r.words[0..] == r.words && r.objects[0..] == r.objects && r.into[0..] == r.into;
      for i := 0 to |r.words|
        invariant objects == old(objects)
        invariant target == ResetWords(words[..], r.words[i..])
      {
        ResetWordsStep(words[..], r.words, i);
        SetWord(r.words[i].0, r.words[i].1);
      }
      ResetWordsEnd(words[..], r.words);
      ghost var plain := ResetObjects(objects, r.objects);
      for i := 0 to |r.objects|
        invariant |objects| == |old(objects)| && words[..] == target
        invariant plain == ResetObjects(objects, r.objects[i..])
      {
        ResetObjectsStep(objects, r.objects, i);
        objects := objects[r.objects[i].0 := r.objects[i].1];
      }
      ResetObjectsEnd(objects, r.objects);
      ghost var goal := ResetInto(objects, r.into);
      for i := 0 to |r.into|
        invariant |objects| == |old(objects)| && words[..] == target
        invariant goal == ResetInto(objects, r.into[i..])
      {
        ResetIntoStep(objects, r.into, i);
        var o := CopyInto(objects[r.into[i].0], r.into[i].1);
        if o.None? {
          return false;
        }
        objects := objects[r.into[i].0 := o.value];
      }
      ResetIntoEnd(objects, r.into);
      return true;
    }

    /** An arriving option of a union: reset if it was not the one held, then recorded. */
    method SelectOption(row: Row, ghost phase: Phase) returns (fits: bool)
      requires SlotsOk(row, words.Length, |objects|)
      modifies this`objects, words
      ensures (Core(phase), fits) == Select(old(Core(phase)), row)
    {
      hide ResetWords, ResetObjects, ResetInto;
      fits := true;
      if row.which >= 0 {
        if words[row.which] != row.id {
          fits := ResetOption(row);
        }
        if fits {
          ghost var before := words[..];
          var optionId: word := row.id;
          SetWord(row.which, optionId);
          if old(words[row.which]) == row.id {
            assert words[..] == before;
          }
        }
      }
    }

    /** Applies a declared bound to the pending count or length. */
    method SettleBound(declared: int) returns (ok: bool)
      requires PendingOk(pending) && Announced(Bare(pending))
      modifies this`pending
      ensures
        match Settle(old(pending), declared)
        case None => !ok && pending == old(pending)
        case Some(p) => ok && pending == p
    {
      if declared < 0 {
        return true;
      }
      var bare := Bare(pending);
      if bare.Scalar? {
        return true;
      }
      var size := if bare.Payload? then bare.len else bare.count;
      if size > declared {
        return false;
      }
      pending := bare;
      return true;
    }

    /** The arrival slot, once the value is in hand. */
    method RecordArrival(row: Row, count: nat, ghost phase: Phase)
      requires row.countAt < words.Length && count < TWO64
      modifies words, this`pending
      ensures Core(Walk) == Arrived(old(Core(phase)), row, count)
    {
      pending := Nothing;
      if row.countAt >= 0 {
        SetWord(row.countAt, count);
      }
    }

    /** Claims the next `len` bytes in place, or rewinds. */
    method SpanExact(len: nat) returns (ok: bool, data: seq<byte>)
      requires CursorOk()
      modifies this`pos, this`keep
      ensures CursorOk()
      ensures ok <==> len <= |old(Rest())|
      ensures ok ==> data == old(Rest())[..len] && pos == old(pos) + len
      ensures !ok ==> pos == old(pos)
    {
      keep := pos;
      if pos + len > n {
        pos := keep;
        return false, [];
      }
      data := Buffered()[pos..pos + len];
      assert data == Rest()[..len];
      pos := pos + len;
      return true, data;
    }

    method TakeScalarField(row: Row, ghost phase: Phase) returns (t: Took)
      requires CursorOk() && SlotsOk(row, words.Length, |objects|)
      requires row.kind.KUnsigned? || row.kind.KSigned? || row.kind.KBoolean?
      modifies this`pos, this`keep, this`pending, words
      ensures CursorOk()
      ensures Follows(TakeScalar(old(Core(phase)), row, old(Rest())), t,
                      Core(if t.Done? then Walk else phase), pos - old(pos))
    {
      hide ReadVarint;
      keep := pos;
      ghost var s := Rest();
      ReadVarintBounds(s);
      var r := Varint();
      match r {
        case More => return NotYet;
        case Overlong => return Wrong(Invalid);
        case Got(raw, _) =>
          var v := if row.kind.KSigned? then ZigzagDecode(raw) else raw;
          if row.bounded && !row.kind.KBoolean? && (v > row.hi || (row.kind.KSigned? && v < row.lo)) {
            return Wrong(Invalid);
          }
          SetWord(row.at, if row.kind.KBoolean? then Truth(raw) else Slot(v));
          RecordArrival(row, 1, phase);
          return Done;
      }
    }

    method TakeFloatField(row: Row, ghost phase: Phase) returns (t: Took)
      requires CursorOk() && SlotsOk(row, words.Length, |objects|)
      requires row.kind.KFloat32? || row.kind.KFloat64?
      modifies this`pos, this`keep, this`pending, words
      ensures CursorOk()
      ensures Follows(TakeFloat(old(Core(phase)), row, old(Rest())), t,
                      Core(if t.Done? then Walk else phase), pos - old(pos))
    {
      var len := if row.kind.KFloat32? then 4 else 8;
      var ok, data := SpanExact(len);
      if !ok {
        return NotYet;
      }
      SetWord(row.at, F.Element(data, len, 0));
      RecordArrival(row, 1, phase);
      return Done;
    }

    /** A payload copied into the buffer the slot already holds. */
    method CopyField(row: Row, ghost phase: Phase) returns (t: Took)
      requires CursorOk() && SlotsOk(row, words.Length, |objects|) && row.into
      requires IsObject(row.kind) && PendingOk(pending) && Bare(pending).Payload? && Announced(Bare(pending))
      modifies this`pos, this`keep, this`pending, this`objects, words
      ensures CursorOk()
      ensures Follows(TakeObject(old(Core(phase)), row, old(Rest())), t,
                      Core(if t.Done? then Walk else phase), pos - old(pos))
    {
      hide Utf8.Valid, Arrived, CursorOk, Rest, Buffered, ResetOk;
      // The destination is the caller's own storage, so the cap is spent.
      pending := Bare(pending);
      var size := pending.len;
      var dst := objects[row.at];
      if !dst.Buffer? || |dst.bytes| < size {
        return Wrong(Refused);
      }
      var ok, data := SpanExact(size);
      if !ok {
        return NotYet;
      }
      if row.kind.KString? {
        var fine := ValidText(data);
        if !fine {
          return Wrong(Invalid);
        }
      }
      objects := objects[row.at := Buffer(data + dst.bytes[size..])];
      RecordArrival(row, size, phase);
      return Done;
    }

    /** A payload stored as a value the decoder builds, which a cap may forbid. */
    method BuildField(row: Row, ghost phase: Phase) returns (t: Took)
      requires CursorOk() && SlotsOk(row, words.Length, |objects|) && !row.into
      requires IsObject(row.kind) && PendingOk(pending) && Bare(pending).Payload? && Announced(Bare(pending))
      modifies this`pos, this`keep, this`pending, this`objects, words
      ensures CursorOk()
      ensures Follows(TakeObject(old(Core(phase)), row, old(Rest())), t,
                      Core(if t.Done? then Walk else phase), pos - old(pos))
    {
      hide Utf8.Valid, Arrived;
      if pending.Limit? {
        return Wrong(Limited);
      }
      var ok, data := SpanExact(pending.len);
      if !ok {
        return NotYet;
      }
      if row.kind.KString? && !Utf8.Valid(data) {
        return Wrong(Invalid);
      }
      objects := objects[row.at := Built(data)];
      RecordArrival(row, 1, phase);
      return Done;
    }

    /** The windowed check, for a payload nobody materializes. */
    method ValidText(data: seq<byte>) returns (ok: bool)
      ensures ok <==> Utf8.Valid(data)
    {
      hide Utf8.Valid;
      ok := Utf8.Utf8Valid(data, 0, |data|);
      assert data[0..|data|] == data;
    }

    method TakeIntsField(row: Row, ghost phase: Phase) returns (t: Took)
      requires CursorOk() && SlotsOk(row, words.Length, |objects|)
      requires row.kind.KArrayUnsigned? || row.kind.KArraySigned? || row.kind.KArrayBoolean?
      requires pending.VArray? && pending.count <= row.cap && Announced(pending)
      modifies this`pos, this`keep, this`pending, words
      ensures CursorOk()
      ensures Follows(TakeInts(old(Core(phase)), row, old(Rest())), t,
                      Core(if t.Done? then Walk else phase), pos - old(pos))
    {
      hide ReadElems, Slots, Fill, Truths, Arrived, ResetOk, Takes;
      keep := pos;
      var count := pending.count;
      ghost var was := words[..];
      var lo := if row.bounded && row.kind.KArraySigned? then Some(row.lo) else None;
      var hi := if row.bounded && !row.kind.KArrayBoolean? then Some(row.hi) else None;
      assert Lo(lo) == RowLo(row) && Hi(hi) == RowHi(row);
      hide Lo, Hi, RowLo, RowHi, CursorOk, Rest, Buffered, SlotsOk;
      ghost var e := ReadElems(Rest(), count, row.kind.KArraySigned?, RowLo(row), RowHi(row));
      ReadElemsBounds(Rest(), count, row.kind.KArraySigned?, RowLo(row), RowHi(row));
      var values, end := ReadVarints(count, lo, hi, row.kind.KArraySigned?, true, row.at);
      if !end.Through? {
        return if end.Short? then NotYet else Wrong(Invalid);
      }
      if row.kind.KArrayBoolean? {
        Normalize(row.at, count, was, Slots(e.values));
      }
      RecordArrival(row, count, phase);
      return Done;
    }

    /** Booleans are normalized in a second pass over the filled slots. */
    method Normalize(at: nat, count: nat, ghost was: seq<word>, ghost raw: seq<word>)
      requires at + count <= words.Length == |was| && |raw| == count
      requires words[..] == Fill(was, at, raw)
      modifies words
      ensures words[..] == Fill(was, at, Truths(raw))
    {
      for i := at to at + count
        invariant words[..] == Fill(was, at, Truths(raw[..i - at]) + raw[i - at..])
      {
        NormalizeStep(was, at, raw, i - at);
        if words[i] > 1 {
          SetWord(i, 1);
        } else {
          assert words[..] == words[..][i := words[i]];
        }
      }
      assert raw[..count] == raw && raw[count..] == [];
      assert Truths(raw) + [] == Truths(raw);
    }

    method TakeFloatsField(row: Row, ghost phase: Phase) returns (t: Took)
      requires CursorOk() && SlotsOk(row, words.Length, |objects|)
      requires row.kind.KArrayFloat32? || row.kind.KArrayFloat64?
      requires pending.FArray? && pending.count <= row.cap && Announced(pending)
      modifies this`pos, this`keep, this`pending, words
      ensures CursorOk()
      ensures Follows(TakeFloats(old(Core(phase)), row, old(Rest())), t,
                      Core(if t.Done? then Walk else phase), pos - old(pos))
    {
      hide F.Elements, F.Packed, Arrived;
      var width := if row.kind.KArrayFloat32? then 4 else 8;
      var count := pending.count;
      var ok, data := SpanExact(F.Packed(width, count));
      if !ok {
        return NotYet;
      }
      F.UnpackFarrayInto(words, row.at, data, count, width);
      RecordArrival(row, count, phase);
      return Done;
    }

    /** A field the destination table names. */
    method MappedField(row: Row, ghost phase: Phase) returns (t: Took)
      requires CursorOk() && SlotsOk(row, words.Length, |objects|) && !row.kind.KSequence?
      requires PendingOk(pending) && Announced(Bare(pending)) && WireTag(row.kind) == TagOf(Bare(pending))
      modifies this`pos, this`keep, this`pending, this`objects, words
      ensures CursorOk()
      ensures Follows(TakeMapped(old(Core(phase)), row, old(Rest())), t,
                      Core(if t.Done? then Walk else phase), pos - old(pos))
    {
      hide TakeReady, Select, Takes, ResetOk;
      var fits := SelectOption(row, phase);
      if !fits {
        return Wrong(Refused);
      }
      var ok := SettleBound(row.Declared());
      if !ok {
        return Wrong(Invalid);
      }
      t := ReadyField(row, phase);
    }

    /** The store itself, with the option and the bound settled. */
    method ReadyField(row: Row, ghost phase: Phase) returns (t: Took)
      requires CursorOk() && SlotsOk(row, words.Length, |objects|) && !row.kind.KSequence?
      requires PendingOk(pending) && Announced(Bare(pending)) && WireTag(row.kind) == TagOf(Bare(pending))
      requires IsArray(row.kind) ==> pending == Bare(pending) && Settle(pending, row.cap).Some?
      modifies this`pos, this`keep, this`pending, this`objects, words
      ensures CursorOk()
      ensures Follows(TakeReady(old(Core(phase)), row, old(Rest())), t,
                      Core(if t.Done? then Walk else phase), pos - old(pos))
    {
      hide TakeScalar, TakeFloat, TakeObject, TakeInts, TakeFloats, SlotsOk, Takes;
      if IsObject(row.kind) {
        if row.into {
          t := CopyField(row, phase);
        } else {
          t := BuildField(row, phase);
        }
      } else if row.kind.KFloat32? || row.kind.KFloat64? {
        t := TakeFloatField(row, phase);
      } else if IsScalar(row.kind) {
        t := TakeScalarField(row, phase);
      } else if row.kind.KArrayFloat32? || row.kind.KArrayFloat64? {
        t := TakeFloatsField(row, phase);
      } else {
        t := TakeIntsField(row, phase);
      }
    }

    // ----- visitor values -------------------------------------------------------------

    /** A typed hook fires; the value is committed. */
    method Hand(into: bool, e: Event, ghost phase: Phase)
      requires visitor.Some?
      modifies this`log, this`pending
      ensures Core(Walk) == Deliver(old(Core(phase)), into, e)
    {
      pending := Nothing;
      log := log + [Call(visitor.value, into, e)];
    }

    method VisitScalar(id: nat, signed: bool, ghost phase: Phase) returns (t: Took)
      requires CursorOk() && visitor.Some? && pending == Scalar(signed)
      modifies this`pos, this`keep, this`pending, this`log
      ensures CursorOk()
      ensures Follows(Visit(cfg, old(Core(phase)), id, old(Rest())), t,
                      Core(if t.Done? then Walk else phase), pos - old(pos))
    {
      hide ReadVarint, Deliver;
      keep := pos;
      ReadVarintBounds(Rest());
      var r := Varint();
      match r {
        case More => return NotYet;
        case Overlong => return Wrong(Invalid);
        case Got(raw, _) =>
          Hand(false, Int(id, signed, Cooked(signed, raw)), phase);
          return Done;
      }
    }

    /** Strings, blobs and single floats; the first two may go to a buffer of the handler's. */
    method VisitFixlen(id: nat, st: nat, len: nat, ghost phase: Phase) returns (t: Took)
      requires CursorOk() && visitor.Some? && Bare(pending) == Payload(st, len)
      modifies this`pos, this`keep, this`pending, this`log
      ensures CursorOk()
      ensures Follows(VisitPayload(cfg, old(Core(phase)), id, st, len, old(Rest())), t,
                      Core(if t.Done? then Walk else phase), pos - old(pos))
    {
      hide Utf8.Valid, Deliver, Takes, BytesFit, CursorOk, Rest, Buffered;
      var dst := if st >= STRING then cfg.handler.place(visitor.value, log, id, FIXLEN, st, len) else None;
      if pending.Limit? && dst.None? {
        return Wrong(Limited);
      }
      pending := Bare(pending);
      if dst.Some? && !BytesFit(dst.value, len) {
        return Wrong(Refused);
      }
      var ok, data := SpanExact(len);
      if !ok {
        return NotYet;
      }
      if st == STRING {
        if dst.Some? {
          var fine := ValidText(data);
          if !fine {
            return Wrong(Invalid);
          }
        } else if !Utf8.Valid(data) {
          return Wrong(Invalid);
        }
      }
      Hand(dst.Some?, Fixlen(id, st, data), phase);
      return Done;
    }

    /** An integer array, by whichever route the handler asked for at its header. */
    method VisitVarints(id: nat, signed: bool, count: nat, ghost phase: Phase) returns (t: Took)
      requires CursorOk() && visitor.Some? && Bare(pending) == VArray(signed, count)
      modifies this`pos, this`keep, this`pending, this`log, words
      ensures CursorOk()
      ensures Follows(VisitInts(cfg, old(Core(phase)), id, signed, count, old(Rest())), t,
                      Core(if t.Done? then Walk else phase), pos - old(pos))
    {
      hide ReadElems, Deliver, Takes, IntsFit, CursorOk, Rest, Buffered;
      var layout := cfg.handler.layout(visitor.value, log, id, signed, count);
      if pending.Limit? && layout.into.None? {
        return Wrong(Limited);
      }
      pending := Bare(pending);
      if layout.into.Some? && !IntsFit(layout.into.value, signed, layout.lo, layout.hi, count) {
        return Wrong(Refused);
      }
      t := ReadInts(id, signed, count, layout, phase);
    }

    /** The elements, once nothing stands in their way. */
    method ReadInts(id: nat, signed: bool, count: nat, layout: Layout, ghost phase: Phase) returns (t: Took)
      requires CursorOk() && visitor.Some?
      modifies this`pos, this`keep, this`pending, this`log, words
      ensures CursorOk()
      ensures
        var e := ReadElems(old(Rest()), count, signed, layout.lo, layout.hi);
        match e.end
        case Short => t.NotYet? && Core(phase) == old(Core(phase)) && pos == old(pos)
        case Bad => t == Wrong(Invalid) && Core(phase) == old(Core(phase))
        case Through =>
          && t.Done? && pos == old(pos) + e.used
          && Core(Walk) == Deliver(old(Core(phase)), layout.into.Some?, Ints(id, signed, e.values))
    {
      hide ReadElems, Deliver;
      keep := pos;
      ReadElemsBounds(Rest(), count, signed, layout.lo, layout.hi);
      var values, end := ReadVarints(count, Some(layout.lo), Some(layout.hi), signed, false, 0);
      if !end.Through? {
        return if end.Short? then NotYet else Wrong(Invalid);
      }
      Hand(layout.into.Some?, Ints(id, signed, values), phase);
      return Done;
    }

    /** A fixlen array: raw wire bytes, a destination, or the list. */
    method VisitFarray(id: nat, st: nat, count: nat, ghost phase: Phase) returns (t: Took)
      requires CursorOk() && visitor.Some? && Bare(pending) == FArray(st, count)
      modifies this`pos, this`keep, this`pending, this`log
      ensures CursorOk()
      ensures Follows(VisitFloats(cfg, old(Core(phase)), id, st, count, old(Rest())), t,
                      Core(if t.Done? then Walk else phase), pos - old(pos))
    {
      hide F.Packed, Deliver, Takes, FloatsFit, CursorOk, Rest, Buffered;
      var who := visitor.value;
      var dst: Option<Dest> := None;
      if !(st == FP32 && cfg.handler.rawSingles(who)) {
        dst := cfg.handler.place(who, log, id, ARRAY_FIXLEN, st, count);
      }
      if pending.Limit? && dst.None? {
        return Wrong(Limited);
      }
      pending := Bare(pending);
      if dst.Some? && !FloatsFit(dst.value, count) {
        return Wrong(Refused);
      }
      var ok, data := SpanExact(F.Packed(Width(st), count));
      if !ok {
        return NotYet;
      }
      Hand(dst.Some?, Floats(id, st, data), phase);
      return Done;
    }

    /** Hands the current value to the visitor's typed hook. */
    method VisitValue(id: nat, ghost phase: Phase) returns (t: Took)
      requires CursorOk() && visitor.Some? && PendingOk(pending) && Announced(Bare(pending))
      modifies this`pos, this`keep, this`pending, this`log, words
      ensures CursorOk()
      ensures Follows(Visit(cfg, old(Core(phase)), id, old(Rest())), t,
                      Core(if t.Done? then Walk else phase), pos - old(pos))
    {
      hide VisitPayload, VisitInts, VisitFloats, Takes;
      match Bare(pending) {
        case Scalar(signed) => t := VisitScalar(id, signed, phase);
        case Payload(st, len) => t := VisitFixlen(id, st, len, phase);
        case VArray(signed, count) => t := VisitVarints(id, signed, count, phase);
        case FArray(st, count) => t := VisitFarray(id, st, count, phase);
      }
    }

    // ----- scopes -----------------------------------------------------------------------

    /** The stacks hold what the open scopes will bring back. */
    ghost predicate Scoped()
      reads this`scopes, this`bstack, this`bsp, this`vstack, this`vdepth, this`vsp
    {
      StackOk(cfg.tabled, scopes, bstack, bsp) && KidsOk(scopes, vstack, vdepth, vsp)
    }

    /** An end marker: popped from the stacks it was pushed on, told to whoever heard it open. */
    method EndScope()
      requires Scoped() && scopes != [] && depth == |scopes| - 1
      requires ScopesOk(cfg, scopes, table, visitor) && TableOk(cfg, table)
      modifies this`table, this`bstack, this`bsp, this`visitor, this`vsp, this`scopes, this`log
      ensures Scoped() && Core(Walk) == CloseScope(old(Core(Walk)))
    {
      ghost var f, outer := scopes[|scopes| - 1], scopes[..|scopes| - 1];
      TopFrame(cfg, scopes, table, visitor);
      ClosedTo(Core(Walk));
      hide StackOk, KidsOk, Kids, ScopesOk, FrameOk, CloseScope;
      var bound := table.Some?;
      PopTable(f, outer);
      if bound {
        KidsPop(scopes, vstack, vdepth, vsp);
      } else {
        PopVisitor(f, outer);
      }
      scopes := outer;
    }

    /** The table the innermost scope was opened in comes back. */
    method PopTable(ghost f: Frame, ghost outer: seq<Frame>)
      requires StackOk(cfg.tabled, scopes, bstack, bsp) && scopes != []
      requires f == scopes[|scopes| - 1] && outer == scopes[..|scopes| - 1]
      requires !cfg.tabled ==> table.None? && f.table.None?
      modifies this`table, this`bstack, this`bsp
      ensures StackOk(cfg.tabled, outer, bstack, bsp) && table == f.table
    {
      hide StackOk;
      StackPop(cfg.tabled, scopes, bstack, bsp);
      if bsp > 0 {
        bsp := bsp - 1;
        table := bstack[bsp];
        bstack := bstack[bsp := None];
      }
    }

    /** The handler hears the end of a scope it heard open; a child's own scope gives way to its parent. */
    method PopVisitor(ghost f: Frame, ghost outer: seq<Frame>)
      requires KidsOk(scopes, vstack, vdepth, vsp) && scopes != [] && depth == |scopes| - 1
      requires f == scopes[|scopes| - 1] && outer == scopes[..|scopes| - 1]
      requires !f.opener.ByChild? ==> visitor == f.visitor
      modifies this`visitor, this`vsp, this`log
      ensures KidsOk(outer, vstack, vdepth, vsp) && visitor == f.visitor
      ensures log == old(log) + if old(visitor).Some? then [Call(old(visitor).value, false, End)] else []
    {
      hide KidsOk, Kids;
      KidsPop(scopes, vstack, vdepth, vsp);
      KidsBounds(scopes, vstack, vdepth, vsp);
      if visitor.Some? {
        log := log + [Call(visitor.value, false, End)];
      }
      if vsp > 0 && vdepth[vsp - 1] == depth {
        vsp := vsp - 1;
        visitor := vstack[vsp];
      }
    }

    /** Opens a scope for the current table's row or for the handler. */
    method PushTable(inside: Option<nat>, ghost f: Frame)
      requires StackOk(cfg.tabled, scopes, bstack, bsp) && |scopes| < MAX_DEPTH
      requires f.table == table
      modifies this`bstack, this`bsp, this`table
      ensures StackOk(cfg.tabled, scopes + [f], bstack, bsp)
      ensures table == if cfg.tabled then inside else old(table)
    {
      StackPush(cfg.tabled, scopes, bstack, bsp, f);
      if cfg.tabled {
        bstack := bstack[bsp := table];
        bsp := bsp + 1;
        table := inside;
      }
    }

    /** Descends into the table a row names. */
    method EnterBound(row: Row) returns (fits: bool)
      requires Scoped() && |scopes| < MAX_DEPTH && cfg.tabled
      requires SlotsOk(row, words.Length, |objects|)
      modifies this`table, this`bstack, this`bsp, this`scopes, this`objects, words
      ensures fits ==> Scoped() && EnterRow(old(Core(Walk)), row) == Go(Core(Walk))
      ensures !fits ==>
        EnterRow(old(Core(Walk)), row).Die? && EnterRow(old(Core(Walk)), row).why.Refused? &&
        SameRemains(Core(Walk), EnterRow(old(Core(Walk)), row).m)
    {
      hide Select, StackOk, KidsOk, ResetOk;
      fits := SelectOption(row, Walk);
      if !fits {
        return;
      }
      ghost var f := Frame(table, visitor, ByTable);
      KidsPush(scopes, vstack, vdepth, vsp, f);
      PushTable(Some(row.child), f);
      scopes := scopes + [f];
      if row.countAt >= 0 {
        if words[row.countAt] == TWO64 - 1 {
          return false;
        }
        SetWord(row.countAt, words[row.countAt] + 1);
      }
    }

    /** Offers a sequence to the handler; true if its contents are to be walked. */
    method EnterVisitor() returns (walked: bool)
      requires Scoped() && |scopes| < MAX_DEPTH && visitor.Some? && depth == |scopes| + 1
      requires !cfg.tabled ==> table.None?
      modifies this`table, this`bstack, this`bsp, this`visitor, this`vstack, this`vdepth, this`vsp,
               this`scopes, this`log
      ensures Scoped()
      ensures Core(if walked then Walk else Skip(1)) == EnterHandler(cfg, old(Core(Walk)), curId)
    {
      hide StackOk, KidsOk, Kids;
      var who := visitor.value;
      var answer := cfg.handler.enter(who, log, curId);
      if answer.Decline? {
        log := log + [Asked(who, Enters(curId))];
        return false;
      }
      log := log + [Call(who, false, Begin(curId))];
      ghost var f := Frame(table, visitor, if answer.Child? then ByChild else ByHandler);
      PushTable(None, f);
      PushVisitor(answer, f);
      scopes := scopes + [f];
      return true;
    }

    /** A child handler takes over for the scope; the parent is kept with the depth it closes back to. */
    method PushVisitor(answer: Descent, ghost f: Frame)
      requires KidsOk(scopes, vstack, vdepth, vsp) && |scopes| < MAX_DEPTH && depth == |scopes| + 1
      requires f.visitor == visitor && (f.opener.ByChild? <==> answer.Child?)
      modifies this`visitor, this`vstack, this`vdepth, this`vsp
      ensures KidsOk(scopes + [f], vstack, vdepth, vsp)
      ensures visitor == if answer.Child? then Some(answer.visitor) else old(visitor)
    {
      hide KidsOk, Kids;
      KidsPush(scopes, vstack, vdepth, vsp, f);
      KidsBounds(scopes, vstack, vdepth, vsp);
      if answer.Child? {
        vstack := vstack[vsp := visitor];
        vdepth := vdepth[vsp := depth - 1];
        vsp := vsp + 1;
        visitor := Some(answer.visitor);
      }
    }

    // ----- the driver -------------------------------------------------------------------

    ghost predicate Valid()
      reads this, rbuf
    {
      && CursorOk() && Scoped()
      && (capped <==> cfg.arrayCap < ARRAY_MAX || cfg.textCap < FIXLEN_MAX || cfg.blobCap < FIXLEN_MAX)
    }

    /** Decides what a header means: for a table, for the handler, or for nobody. */
    method Handle(wt: nat, ghost before: nat) returns (x: Next)
      requires Valid() && wt < 8 && curId <= ID_MAX
      requires Ok(cfg, Core(Walk)) && before == |scopes|
      requires wt == SEQUENCE_END ==> before > 0 && depth == before - 1
      requires wt == SEQUENCE_START ==> before < MAX_DEPTH && depth == before + 1
      requires wt < SEQUENCE_START ==> depth == before
      requires wt >= SEQUENCE_START ==> pending == Nothing
      requires wt < SEQUENCE_START ==> Announced(Bare(pending)) && TagOf(Bare(pending)) == (wt, curSub)
      modifies this`table, this`bstack, this`bsp, this`visitor, this`vstack, this`vdepth, this`vsp, this`scopes,
               this`log, this`pending, this`objects, words
      ensures CursorOk()
      ensures
        var t := Dispatch(cfg, old(Core(Walk)), wt, curId, curSub);
        match x
        case Walking => Valid() && t == Go(Core(Walk))
        case Skipping => Valid() && t == Go(Core(Skip(1)))
        case Taking(row) => Valid() && t == Go(Core(Take(curId, row)))
        case Ends(why) => t.Die? && t.why == why && SameRemains(Core(Walk), t.m)
    {
      hide Lookup, EnterRow, EnterHandler, Settle, StackOk, KidsOk, ScopesOk, TablesOk;
      if wt == SEQUENCE_END {
        EndScope();
        return Walking;
      }
      var row := Lookup(cfg, table, curId, wt, curSub);
      if row.Some? {
        RowIsOk(cfg, Core(Walk), curId, wt, curSub);
        if wt != SEQUENCE_START {
          return Taking(row);
        }
        var fits := EnterBound(row.value);
        return if fits then Walking else Ends(Refused);
      }
      if wt != SEQUENCE_START && Mistyped(cfg, table, curId, wt, curSub) {
        return Walking;
      }
      if Closed(cfg, table) {
        return if wt == SEQUENCE_START then Skipping else Walking;
      }
      if wt == SEQUENCE_START {
        if visitor.None? {
          NobodyHome(cfg, Core(Walk), curId);
          return Skipping;
        }
        var walked := EnterVisitor();
        return if walked then Walking else Skipping;
      }
      x := OfferField(wt);
    }

    /** A value field that is the handler's to accept and to bound. */
    method OfferField(wt: nat) returns (x: Next)
      requires Announced(Bare(pending)) && PendingOk(pending)
      modifies this`pending, this`log
      ensures !x.Skipping?
      ensures
        var t := Offer(cfg, old(Core(Walk)), curId, wt, curSub);
        match x
        case Walking => t == Go(Core(Walk))
        case Taking(row) => t == Go(Core(Take(curId, row))) && row == None
        case Ends(why) => t.Die? && t.why == why && SameRemains(Core(Walk), t.m)
        case Skipping => true
    {
      if visitor.None? {
        return Walking;
      }
      var size := Size(Bare(pending));
      var wanted := cfg.handler.accept(visitor.value, log, curId, wt, curSub, size);
      log := log + [Asked(visitor.value, Wants(curId, wt, curSub, size))];
      if !wanted {
        return Walking;
      }
      var declared := SchemaBound();
      var ok := SettleBound(declared);
      return if ok then Taking(None) else Ends(Invalid);
    }

    /** The handler's answer to `on_schema_bound`, asked where there is a count or length to bound. */
    method SchemaBound() returns (declared: int)
      requires visitor.Some?
      modifies this`log
      ensures declared == HandlerBound(cfg, old(Core(Walk)), curId) && Core(Walk) == AskBound(old(Core(Walk)), curId)
    {
      var bare := Bare(pending);
      var wt: nat, sub: int;
      match bare {
        case Payload(st, _) =>
          if st < STRING {
            return -1;
          }
          wt, sub := FIXLEN, st;
        case VArray(signed, _) => wt, sub := if signed then ARRAY_SIGNED else ARRAY_UNSIGNED, -1;
        case FArray(st, _) => wt, sub := ARRAY_FIXLEN, st;
        case _ => return -1;
      }
      declared := cfg.handler.bound(visitor.value, log, curId, Size(bare), wt, sub);
      log := log + [Asked(visitor.value, Bounds(curId, Size(bare), wt, sub))];
    }

    /** What the walk is inside of: a sequence nobody wants, or the handler's own scopes. */
    ghost function Inside(): Phase
      reads this`depth, this`scopes
    {
      if depth > |scopes| then Skip(depth - |scopes|) else Walk
    }

    /** One field or marker inside a sequence that is being skipped. */
    method PassField(ghost k: nat, ghost whole: Out) returns (d: Drive)
      requires Valid() && depth > |scopes|
      requires Leads(cfg, Core(Inside()), Rest(), k, whole)
      modifies this`pos, this`keep, this`pending, this`depth, this`curId, this`curSub
      ensures Valid()
      ensures d.Finished? ==>
        pos > old(pos) && n == old(n) && depth >= |scopes| && depth <= old(depth) + 1 &&
        Leads(cfg, Core(Inside()), Rest(), k + pos - old(pos), whole)
      ensures d.Starved? ==> depth > |scopes| && Ok(cfg, Core(Inside()))
      ensures !d.Finished? ==> Answers(whole, d, Core(Inside()), k + pos - old(pos))
    {
      hide StackOk, KidsOk, Machine.Run, Machine.Ok, NextHeading, HeadFits, Behind;
      ghost var m, s := Core(Inside()), Rest();
      RoundRuns(cfg, m, s, k, whole);
      ghost var h := NextHeading(cfg, m, s);
      if h.HField? {
        SkipRound(cfg, m, s, k, whole, h.head, h.skipped);
        Further(Buffered(), pos, h.skipped + h.head.used);
      }
      var w := NextWire(m);
      if w.Header? {
        return Finished;
      }
      return if w.Malformed? then Broke(Invalid) else Starved;
    }

    /**
     Passes over everything up to the marker that closes the sequence just
     opened.  What has been passed stays passed when the bytes run out.
     */
    method SkipSequence() returns (d: Drive)
      requires Valid() && depth > |scopes|
      requires skipDepth == |scopes| || (skipDepth < 0 && depth == |scopes| + 1)
      requires Ok(cfg, Core(Inside()))
      modifies this`pos, this`keep, this`pending, this`depth, this`curId, this`curSub, this`skipDepth
      ensures Valid()
      ensures
        var whole := Run(cfg, old(Core(Inside())), old(Rest()));
        if d.Finished? then
          pos >= old(pos) && skipDepth < 0 && depth == |scopes| && Leads(cfg, Core(Walk), Rest(), pos - old(pos), whole)
        else
          && Answers(whole, d, Core(Inside()), pos - old(pos))
          && (d.Starved? ==> skipDepth == |scopes| < depth && Ok(cfg, Core(Inside())))
    {
      hide StackOk, KidsOk, Machine.Run, Machine.Ok, NextHeading, HeadFits, Leads, Answers;
      ghost var whole, start := Run(cfg, Core(Inside()), Rest()), pos;
      LeadsFromHere(cfg, Core(Inside()), Rest());
      if skipDepth < 0 {
        skipDepth := depth - 1;
      }
      while depth > skipDepth
        invariant Valid() && skipDepth == |scopes| <= depth && start <= pos
        invariant Leads(cfg, Core(Inside()), Rest(), pos - start, whole)
        decreases n - pos
      {
        d := PassField(pos - start, whole);
        if !d.Finished? {
          return;
        }
      }
      skipDepth := -1;
      return Finished;
    }

    /** The phase the fields put the machine in between feeds. */
    ghost function Phase(): Machine.Phase
      reads this`depth, this`scopes, this`resume, this`resumeRow, this`curId
    {
      match resume
      case RNone => Walk
      case RSkip => Inside()
      case RVisit => Take(curId, resumeRow)
    }

    /** What every feed leaves behind, and the next one takes up. */
    ghost predicate Standing()
      reads this, rbuf, words
    {
      CursorOk() && Poised()
    }

    /** The part of that the cursor has no say in. */
    ghost predicate Poised()
      reads this`scopes, this`bstack, this`bsp, this`vstack, this`vdepth, this`vsp,
            this`depth, this`resume, this`resumeRow, this`curId, this`skipDepth,
            this`pending, this`table, this`visitor, this`objects, this`log, words
    {
      && Scoped()
      && (capped <==> cfg.arrayCap < ARRAY_MAX || cfg.textCap < FIXLEN_MAX || cfg.blobCap < FIXLEN_MAX)
      && Ok(cfg, Core(Phase()))
      && match resume
         case RNone => depth == |scopes| && skipDepth < 0
         case RSkip => depth > |scopes| && skipDepth == |scopes|
         case RVisit => depth == |scopes| && skipDepth < 0 && Chunks.Suspended(cfg, Core(Phase()))
    }

    /** At a field boundary with every sequence closed and every byte consumed. */
    ghost predicate AtBoundary()
      reads this
    {
      resume.RNone? && pending == Nothing && pos == n && depth == 0
    }

    /** A drive that ended, in terms of the run it was driving. */
    ghost predicate Drove(d: Drive, k: int, whole: Out)
      reads this, rbuf, words
    {
      && Answers(whole, d, Core(Phase()), k)
      && (!d.Broke? ==> Standing())
      && (d.Finished? <==> !d.Broke? && AtBoundary())
    }

    /** One attempt at the value the driver has settled on. */
    method TakeValue(row: Option<Row>, ghost k: nat, ghost whole: Out) returns (t: Took)
      requires CursorOk() && Leads(cfg, Core(Take(curId, row)), Rest(), k, whole)
      modifies this`pos, this`keep, this`pending, this`objects, this`log, words
      ensures CursorOk()
      ensures Follows(Step(cfg, old(Core(Take(curId, row))), old(Rest())), t,
                      Core(if t.Done? then Walk else Take(curId, row)), pos - old(pos))
    {
      hide Machine.Run, TakeMapped, Visit, Step, SlotsOk, Leads, Follows;
      TakeOk(cfg, Core(Take(curId, row)), Rest(), k, whole);
      if row.Some? {
        t := MappedField(row.value, Take(curId, row));
      } else {
        t := VisitValue(curId, Take(curId, row));
      }
    }

    /** One attempt at the value behind the cursor; where it waits, the driver is left pointing at it. */
    method TakeCurrent(row: Option<Row>, ghost k: nat, ghost whole: Out) returns (d: Drive)
      requires Valid() && depth == |scopes| && skipDepth < 0 && resume.RNone?
      requires Leads(cfg, Core(Take(curId, row)), Rest(), k, whole)
      modifies this`pos, this`keep, this`pending, this`objects, this`log, this`resume, this`resumeRow, words
      ensures Valid()
      ensures d.Finished? ==>
        resume.RNone? && pos >= old(pos) && Leads(cfg, Core(Walk), Rest(), k + pos - old(pos), whole)
      ensures !d.Finished? ==> Drove(d, k + pos - old(pos), whole)
    {
      hide StackOk, KidsOk, Machine.Run, Step, Machine.Ok, Follows, Chunks.Suspended;
      ghost var m, s := Core(Take(curId, row)), Rest();
      var t := TakeValue(row, k, whole);
      TakeRuns(cfg, m, s, k, whole, t, Core(if t.Done? then Walk else Take(curId, row)), pos - old(pos));
      hide Leads;
      match t {
        case Done =>
          Further(Buffered(), old(pos), pos - old(pos));
          return Finished;
        case NotYet =>
          resume, resumeRow := RVisit, row;
          return Starved;
        case Wrong(why) =>
          return Broke(why);
      }
    }

    /** Does the state lead to the whole run between two fields? */
    ghost predicate Between(k: int, whole: Out)
      reads this, rbuf, words
    {
      && Valid() && depth == |scopes| && skipDepth < 0 && resume.RNone?
      && Leads(cfg, Core(Walk), Rest(), k, whole)
    }

    /** Acts on the header just read; `None` to go on with the next one. */
    method Act(wt: nat, ghost before: nat, ghost k: nat, ghost whole: Out) returns (d: Option<Drive>)
      requires Valid() && skipDepth < 0 && resume.RNone? && wt < 8 && curId <= ID_MAX
      requires Ok(cfg, Core(Walk)) && before == |scopes|
      requires depth == before + Nesting(wt)
      requires wt == SEQUENCE_END ==> before > 0
      requires wt == SEQUENCE_START ==> before < MAX_DEPTH
      requires wt >= SEQUENCE_START ==> pending == Nothing
      requires wt < SEQUENCE_START ==> Announced(Bare(pending)) && TagOf(Bare(pending)) == (wt, curSub)
      requires
        var t := Dispatch(cfg, Core(Walk), wt, curId, curSub);
        if t.Go? then Leads(cfg, t.m, Rest(), k, whole) else whole == Stop(t.m, t.why)
      modifies this`pos, this`keep, this`pending, this`depth, this`curId, this`curSub, this`skipDepth,
               this`table, this`bstack, this`bsp, this`visitor, this`vstack, this`vdepth, this`vsp, this`scopes,
               this`log, this`objects, this`resume, this`resumeRow, words
      ensures CursorOk()
      ensures d.None? ==> pos >= old(pos) && n == old(n) && Between(k + pos - old(pos), whole)
      ensures d.Some? ==> Drove(d.value, k + pos - old(pos), whole)
    {
      hide StackOk, KidsOk, Dispatch, Machine.Run, Machine.Ok, Leads, Announced;
      hide Scoped, Standing;
      DispatchDepth(cfg, Core(Walk), wt, curId, curSub);
      var x := Handle(wt, before);
      match x {
        case Walking =>
          return None;
        case Skipping =>
          d := SkipScope(k, whole);
        case Taking(row) =>
          var e := TakeCurrent(row, k, whole);
          return if e.Finished? then None else Some(e);
        case Ends(why) =>
          return Some(Broke(why));
      }
    }

    /** Skips the sequence whose start marker was just read, noting a skip that has to be taken up again. */
    method SkipScope(ghost k: nat, ghost whole: Out) returns (d: Option<Drive>)
      requires Valid() && depth > |scopes| && resume.RNone?
      requires skipDepth == |scopes| || (skipDepth < 0 && depth == |scopes| + 1)
      requires Leads(cfg, Core(Inside()), Rest(), k, whole)
      modifies this`pos, this`keep, this`pending, this`depth, this`curId, this`curSub, this`skipDepth, this`resume
      ensures Valid()
      ensures d.None? ==> pos >= old(pos) && n == old(n) && Between(k + pos - old(pos), whole)
      ensures d.Some? ==> Drove(d.value, k + pos - old(pos), whole)
    {
      hide StackOk, KidsOk, Machine.Run, Machine.Ok, Leads, Answers;
      FromRest(cfg, Core(Inside()), Rest(), k, whole);
      var e := SkipSequence();
      if e.Finished? {
        return None;
      }
      if e.Broke? {
        BrokeInAnyPhase(whole, e, Core(Inside()), Core(Phase()), k + pos - old(pos));
      } else {
        resume := RSkip;
      }
      return Some(e);
    }

    /** One field: its header, and whatever that asks for. */
    method NextField(ghost k: nat, ghost whole: Out) returns (d: Option<Drive>)
      requires Between(k, whole)
      modifies this`pos, this`keep, this`pending, this`depth, this`curId, this`curSub, this`skipDepth,
               this`table, this`bstack, this`bsp, this`visitor, this`vstack, this`vdepth, this`vsp, this`scopes,
               this`log, this`objects, this`resume, this`resumeRow, words
      ensures CursorOk()
      ensures d.None? ==> pos > old(pos) && n == old(n) && Between(k + pos - old(pos), whole)
      ensures d.Some? ==> Drove(d.value, k + pos - old(pos), whole)
    {
      hide Scoped, Dispatch, Machine.Run, Machine.Ok, NextHeading, Leads, Announced;
      ghost var m, s, start := Core(Walk), Rest(), pos;
      LeadsOk(cfg, m, s, k, whole);
      RoundRuns(cfg, m, s, k, whole);
      ghost var h := NextHeading(cfg, m, s);
      if h.HField? {
        WalkRound(cfg, m, s, k, whole, h.head, h.skipped);
        Further(Buffered(), pos, h.skipped + h.head.used);
      }
      var w := NextWire(m);
      if !w.Header? {
        WaitsOk(cfg, m, s, k, whole, h);
        return Some(if w.AtEnd? then Finished else if w.Suspended? then Starved else Broke(Invalid));
      }
      hide Round, Drove;
      d := Act(w.wt, |scopes|, k + pos - start, whole);
    }

    /** Takes up the value or the skip that ran out of bytes last time. */
    method TakeUp() returns (d: Option<Drive>)
      requires Standing()
      modifies this`pos, this`keep, this`pending, this`depth, this`curId, this`curSub, this`skipDepth,
               this`log, this`objects, this`resume, this`resumeRow, words
      ensures CursorOk()
      ensures
        var whole := Run(cfg, old(Core(Phase())), old(Rest()));
        if d.None? then pos >= old(pos) && n == old(n) && Between(pos - old(pos), whole)
        else Drove(d.value, pos - old(pos), whole)
    {
      hide Scoped, Machine.Run, Machine.Ok, Leads, Chunks.Suspended;
      ghost var whole := Run(cfg, Core(Phase()), Rest());
      LeadsFromHere(cfg, Core(Phase()), Rest());
      if resume.RNone? {
        return None;
      }
      if resume.RSkip? {
        ghost var m := Core(Inside());
        resume := RNone;
        assert Core(Inside()) == m;
        d := SkipScope(0, whole);
        return;
      }
      if !ValueReady() {
        NotReadyWaits(cfg, Core(Phase()), Rest());
        return Some(Starved);
      }
      ghost var m := Core(Take(curId, resumeRow));
      resume := RNone;
      assert Core(Take(curId, resumeRow)) == m;
      var e := TakeCurrent(resumeRow, 0, whole);
      return if e.Finished? then None else Some(e);
    }

    /** Are all bytes of the value at hand, where its length is known from its header? */
    predicate ValueReady()
      requires CursorOk()
      reads this, rbuf
    {
      var have := n - pos;
      match pending
      case Payload(_, len) => have >= len
      case FArray(st, count) => have >= F.Packed(Width(st), count)
      case _ => true
    }

    /** Walks the bytes at hand, field by field, until they run out or the decode ends. */
    method DrivePush() returns (d: Drive)
      requires Standing()
      modifies this`pos, this`keep, this`pending, this`depth, this`curId, this`curSub, this`skipDepth,
               this`table, this`bstack, this`bsp, this`visitor, this`vstack, this`vdepth, this`vsp, this`scopes,
               this`log, this`objects, this`resume, this`resumeRow, words
      ensures CursorOk()
      ensures Drove(d, pos - old(pos), Run(cfg, old(Core(Phase())), old(Rest())))
    {
      hide Scoped, Machine.Run, Machine.Ok, Leads, Drove;
      ghost var whole, start := Run(cfg, Core(Phase()), Rest()), pos;
      var x := TakeUp();
      while x.None?
        invariant CursorOk()
        invariant if x.None? then start <= pos && Between(pos - start, whole) else Drove(x.value, pos - start, whole)
        decreases x.None?, n - pos
      {
        x := NextField(pos - start, whole);
      }
      d := x.value;
    }

    // ----- feeds ------------------------------------------------------------------------

    /** The bytes carried over from the feeds before. */
    ghost function Held(): seq<byte>
      requires rstart <= rend <= rbuf.Length
      reads this`rstart, this`rend, rbuf
    {
      rbuf[rstart..rend]
    }

    ghost predicate Latched()
      reads this`invalid, this`limited, this`refused
    {
      invalid || limited || refused
    }

    /** Between feeds: a decode the caller may go on feeding. */
    ghost predicate Ready()
      reads this, rbuf, words
    {
      && !lost && !refused && !(invalid && limited)
      && rstart <= rend <= rbuf.Length
      && (!Latched() ==> Poised())
    }

    /** The decode the fields stand for. */
    ghost function D(): Chunks.Decode
      requires rstart <= rend <= rbuf.Length
      reads this, rbuf, words
    {
      if Latched() then
        Chunks.Dead(Chunks.Remains(words[..], objects, log),
                    if invalid then Invalid else if limited then Limited else Refused)
      else Chunks.Live(Core(Phase()), Held())
    }

    /** Puts a chunk behind the bytes held, in the caller's buffer, or uses it where it lies if none are. */
    method Reassemble(data: seq<byte>) returns (fits: bool)
      requires rstart <= rend <= rbuf.Length
      modifies this`chunk, this`inPlace, this`n, this`pos, this`rstart, this`rend, rbuf
      ensures rstart <= rend <= rbuf.Length
      ensures fits <==> old(Held()) == [] || |old(Held())| + |data| <= rbuf.Length
      ensures fits ==>
        && pos <= n == |Buffered()| && Buffered()[pos..] == old(Held()) + data
        && (if inPlace then rend == n else pos == 0 && rstart == rend == 0)
        && (inPlace <==> old(Held()) != [])
      ensures !fits ==> Held() == old(Held())
    {
      var held := rend - rstart;
      if held == 0 {
        chunk, inPlace, n, pos := data, false, |data|, 0;
        rstart, rend := 0, 0;
        return true;
      }
      if rend + |data| > rbuf.Length {
        if rstart > 0 {
          Slide();
        }
        if held + |data| > rbuf.Length {
          return false;
        }
      }
      Append(data);
      inPlace, n, pos := true, rend, rstart;
      assert rbuf[..n][pos..] == rbuf[rstart..rend];
      return true;
    }

    /** Writes a chunk behind the bytes held. */
    method Append(data: seq<byte>)
      requires rstart <= rend && rend + |data| <= rbuf.Length
      modifies this`rend, rbuf
      ensures rend == old(rend) + |data| && Held() == old(Held()) + data
    {
      ghost var was := Held();
      forall i | 0 <= i < |data| {
        rbuf[rend + i] := data[i];
      }
      assert rbuf[rstart..rend] == was;
      rend := rend + |data|;
      ghost var mid := rend - |data|;
      assert rbuf[rstart..rend] == rbuf[rstart..mid] + rbuf[mid..rend];
      assert rbuf[mid..rend] == data;
    }

    /** Moves the bytes held to the front of the buffer. */
    method Slide()
      requires rstart <= rend <= rbuf.Length
      modifies this`rstart, this`rend, rbuf
      ensures rstart == 0 && rend == old(rend) - old(rstart) && Held() == old(Held())
    {
      var held := rend - rstart;
      forall i | 0 <= i < held {
        rbuf[i] := rbuf[rstart + i];
      }
      rstart, rend := 0, held;
    }

    /** Keeps what the feed did not consume and lets the chunk go. */
    method Retain() returns (fits: bool)
      requires pos <= n == |Buffered()| && rstart <= rend <= rbuf.Length
      requires if inPlace then rend == n else rstart == rend == 0
      modifies this`chunk, this`inPlace, this`n, this`pos, this`rstart, this`rend, rbuf
      ensures rstart <= rend <= rbuf.Length
      ensures invalid || limited ==> fits && Held() == []
      ensures !(invalid || limited) ==>
        && (fits <==> old(inPlace) || |old(Buffered()[pos..])| <= rbuf.Length)
        && (fits ==> Held() == old(Buffered()[pos..]))
    {
      var carry := n - pos;
      if invalid || limited || carry == 0 {
        rstart, rend, chunk, inPlace, n, pos := 0, 0, [], false, 0, 0;
        return true;
      }
      if inPlace {
        rstart := pos;
        return true;
      }
      if carry > rbuf.Length {
        return false;
      }
      ghost var tail := chunk[pos..n];
      forall i | 0 <= i < carry {
        rbuf[i] := chunk[pos + i];
      }
      assert rbuf[0..carry] == tail;
      rstart, rend, inPlace, n, pos := 0, carry, true, carry, 0;
      return true;
    }

    /**
     One feed.  Unless it is refused for room, it is one feed of the machine:
     the held bytes followed by the chunk are walked, what is left over is kept,
     and a verdict once reached is reported ever after.
     */
    method Feed(data: seq<byte>) returns (r: Fed)
      requires Ready()
      modifies this, words, rbuf
      ensures rstart <= rend <= rbuf.Length
      ensures r.NoRoom? <==>
        !old(Latched()) && old(Held()) != [] && |old(Held())| + |data| > rbuf.Length
      ensures r.NoRoom? ==> Ready() && D() == old(D())
      ensures r.TailLost? <==>
        !old(Latched()) && old(Held()) == [] && Overflows(Chunks.Feed(cfg, old(D()), data), rbuf.Length)
      ensures r.TailLost? ==> Core(Phase()) == Chunks.Feed(cfg, old(D()), data).m
      ensures r.Fed? ==> D() == Chunks.Feed(cfg, old(D()), data) && r.status == Chunks.StatusOf(D())
      ensures r.Fed? && r.status != Chunks.Ended(Refused) ==> Ready()
    {
      hide Scoped, Machine.Run, Machine.Ok, Poised;
      if limited {
        return Fed(Chunks.Ended(Limited));
      }
      if invalid {
        return Fed(Chunks.Ended(Invalid));
      }
      var fits := Reassemble(data);
      if !fits {
        return NoRoom;
      }
      r := Consume();
    }

    /** A feed's report, against the decode it stands for. */
    ghost predicate Reports(r: Fed, e: Chunks.Decode, roomy: bool)
      reads this, rbuf, words
    {
      && rstart <= rend <= rbuf.Length
      && match r
         case Fed(status) =>
           && D() == e && status == Chunks.StatusOf(e)
           && (if status == Chunks.Ended(Refused) then refused else !refused && Ready())
           && (roomy || !Overflows(e, rbuf.Length))
         case TailLost => !roomy && Overflows(e, rbuf.Length) && Core(Phase()) == e.m
         case NoRoom => false
    }

    /** Walks the bytes at hand and settles what the feed leaves behind. */
    method Consume() returns (r: Fed)
      requires Poised() && !Latched() && rstart <= rend <= rbuf.Length
      requires pos <= n == |Buffered()|
      requires if inPlace then rend == n else rstart == rend == 0
      modifies this, words, rbuf
      ensures
        var s := old(Buffered()[pos..]);
        Reports(r, Chunks.Settled(Run(cfg, old(Core(Phase())), s), s), old(inPlace))
    {
      hide Scoped, Machine.Run, Drove, Machine.Ok, Reports, Core, Phase, Buffered, Poised, Chunks.Settled, Rest;
      PoisedIsOk();
      var d;
      ghost var s, k, whole;
      d, s, k, whole := DriveAll();
      r := Leave(d, s, k, whole);
    }

    /** The drive, from the first byte at hand, and the stretch of the run it was. */
    method DriveAll() returns (d: Drive, ghost s: seq<byte>, ghost k: int, ghost whole: Out)
      requires Poised() && pos <= n == |Buffered()|
      modifies this`pos, this`keep, this`pending, this`depth, this`curId, this`curSub, this`skipDepth,
               this`table, this`bstack, this`bsp, this`visitor, this`vstack, this`vdepth, this`vsp, this`scopes,
               this`log, this`objects, this`resume, this`resumeRow, words
      ensures s == old(Buffered()[pos..]) && Ok(cfg, old(Core(Phase()))) && whole == Run(cfg, old(Core(Phase())), s)
      ensures CursorOk() && Drove(d, k, whole)
      ensures whole.Wait? ==> whole.used <= |s|
      ensures 0 <= k <= |s| ==> Rest() == s[k..]
    {
      hide Scoped, Machine.Run, Drove, Machine.Ok, Core, Phase, Buffered, Poised;
      keep := pos;
      PoisedIsOk();
      ghost var buf, start := Buffered(), pos;
      s, whole := Rest(), Run(cfg, Core(Phase()), Rest());
      assert CursorOk();
      hide CursorOk, Rest;
      d := DrivePush();
      k := pos - start;
      RestIs(buf, start, k);
    }

    /** Latches a verdict or keeps the tail, and reports. */
    method Leave(d: Drive, ghost s: seq<byte>, ghost k: int, ghost whole: Out) returns (r: Fed)
      requires CursorOk() && !Latched() && rstart <= rend <= rbuf.Length
      requires if inPlace then rend == n else rstart == rend == 0
      requires Drove(d, k, whole) && (whole.Wait? ==> whole.used <= |s|)
      requires 0 <= k <= |s| ==> Rest() == s[k..]
      modifies this`chunk, this`inPlace, this`n, this`pos, this`rstart, this`rend,
               this`invalid, this`limited, this`refused, this`lost, rbuf
      ensures Reports(r, Chunks.Settled(whole, s), old(inPlace))
    {
      hide Scoped, Machine.Run, Machine.Ok, Poised, Reports, Buffered;
      if d.Broke? {
        LetGo(d.why);
        return Fed(Chunks.Ended(d.why));
      }
      BoundaryIsComplete();
      r := KeepTail(d.Finished?, Chunks.Live(Core(Phase()), Rest()));
    }

    /** More bytes may follow: the tail is kept for them, if the buffer holds it. */
    method KeepTail(complete: bool, ghost e: Chunks.Decode) returns (r: Fed)
      requires CursorOk() && Poised() && !Latched() && rstart <= rend <= rbuf.Length
      requires if inPlace then rend == n else rstart == rend == 0
      requires e == Chunks.Live(Core(Phase()), Rest()) && (complete <==> Chunks.StatusOf(e).Complete?)
      modifies this`chunk, this`inPlace, this`n, this`pos, this`rstart, this`rend, this`lost, rbuf
      ensures Reports(r, e, old(inPlace))
    {
      hide Scoped, Machine.Ok, Poised, Core, Phase, Buffered;
      var fits := Retain();
      lost := !fits;
      if !fits {
        return TailLost;
      }
      return Fed(if complete then Chunks.Complete else Chunks.Incomplete);
    }

    /** The decode is over: the verdict is latched and nothing of the chunk is kept. */
    method LetGo(why: Why)
      requires CursorOk() && !Latched() && rstart <= rend <= rbuf.Length
      requires if inPlace then rend == n else rstart == rend == 0
      modifies this`chunk, this`inPlace, this`n, this`pos, this`rstart, this`rend,
               this`invalid, this`limited, this`refused, this`lost, rbuf
      ensures Reports(Fed(Chunks.Ended(why)), Chunks.Dead(Chunks.Remains(words[..], objects, log), why), old(inPlace))
    {
      hide Poised;
      invalid, limited, refused := why.Invalid?, why.Limited?, why.Refused?;
      var fits := Retain();
      lost := !fits;
    }

    lemma RestIs(buf: seq<byte>, start: nat, k: int)
      requires CursorOk() && Buffered() == buf && start <= |buf| && pos == start + k
      ensures 0 <= k <= |buf[start..]| ==> Rest() == buf[start..][k..]
    {
    }

    lemma PoisedIsOk()
      requires Poised()
      ensures Ok(cfg, Core(Phase()))
    {
    }

    /** Where the fields say a message may end. */
    lemma BoundaryIsComplete()
      requires Poised()
      ensures Phase() == Walk <==> resume.RNone?
      ensures resume.RNone? ==> depth == |scopes|
    {
    }

    /**
     Between feeds the stacks are as high as the nesting says: with a table and
     no skip in flight the table stack is as high as the depth, the depths the
     child handlers close back to rise strictly below it, and no index reaches
     the ceiling the slots were allocated for.
     */
    lemma StackHeights()
      requires Ready() && !Latched()
      ensures depth <= MAX_DEPTH && bsp <= MAX_DEPTH && vsp <= MAX_DEPTH
      ensures !resume.RSkip? ==> bsp == if cfg.tabled then depth else 0
      ensures resume.RSkip? ==> skipDepth == |scopes| < depth
      ensures |vdepth| == MAX_DEPTH
      ensures forall j | 0 <= j < vsp :: vdepth[j] < depth && (j > 0 ==> vdepth[j - 1] < vdepth[j])
    {
      hide ScopesOk, TablesOk;
      KidsRise(scopes);
    }
  }

  lemma {:induction false} KidsRise(scopes: seq<Frame>)
    ensures forall j | 0 < j < |Kids(scopes)| :: Kids(scopes)[j - 1] < Kids(scopes)[j]
    decreases |scopes|
  {
    if scopes != [] {
      KidsRise(scopes[..|scopes| - 1]);
    }
  }

  /** What the innermost open scope says of whoever is inside it. */
  lemma TopFrame(cfg: Config, scopes: seq<Frame>, table: Option<nat>, visitor: Option<int>)
    requires ScopesOk(cfg, scopes, table, visitor) && scopes != []
    ensures
      var f := scopes[|scopes| - 1];
      && (f.opener.ByTable? <==> table.Some?) && (f.table.Some? ==> cfg.tabled)
      && (!f.opener.ByTable? ==> visitor.Some?) && (!f.opener.ByChild? ==> visitor == f.visitor)
  {
  }

  /** A closed scope, field by field. */
  lemma ClosedTo(m: M)
    requires m.scopes != []
    ensures
      var f := m.scopes[|m.scopes| - 1];
      var heard := !f.opener.ByTable? && m.visitor.Some?;
      CloseScope(m) ==
      M(m.phase, m.pending, f.table, f.visitor, m.scopes[..|m.scopes| - 1], m.words, m.objects,
        if heard then m.log + [Call(m.visitor.value, false, End)] else m.log)
  {
  }

  lemma NobodyHome(cfg: Config, m: M, id: nat)
    requires m.visitor.None?
    ensures EnterHandler(cfg, m, id) == m.(phase := Skip(1))
  {
  }

  lemma RowIsOk(cfg: Config, m: M, id: nat, wt: nat, sub: int)
    requires Ok(cfg, m)
    ensures
      var row := Lookup(cfg, m.table, id, wt, sub);
      row.Some? ==> cfg.tabled && RowOk(row.value, |cfg.tables|, |m.words|, |m.objects|)
  {
  }

  lemma KidsBounds(scopes: seq<Frame>, vstack: seq<Option<int>>, vdepth: seq<nat>, vsp: nat)
    requires KidsOk(scopes, vstack, vdepth, vsp)
    ensures |vstack| == |vdepth| == MAX_DEPTH && vsp <= MAX_DEPTH
  {
  }

  lemma NormalizeStep(was: seq<word>, at: nat, raw: seq<word>, k: nat)
    requires k < |raw| && at + |raw| <= |was|
    ensures
      var now := Fill(was, at, Truths(raw[..k]) + raw[k..]);
      && now[at + k] == raw[k]
      && now[at + k := Truth(raw[k])] == Fill(was, at, Truths(raw[..k + 1]) + raw[k + 1..])
  {
    assert Truths(raw[..k + 1]) == Truths(raw[..k]) + [Truth(raw[k])];
  }

  lemma ResetWordsEnd(words: seq<word>, rs: seq<(nat, word)>)
    ensures ResetWords(words, rs[|rs|..]) == words
  {
  }

  lemma ResetObjectsEnd(objects: seq<Obj>, rs: seq<(nat, Obj)>)
    ensures ResetObjects(objects, rs[|rs|..]) == objects
  {
  }

  lemma ResetIntoEnd(objects: seq<Obj>, rs: seq<(nat, seq<byte>)>)
    ensures ResetInto(objects, rs[|rs|..]) == (objects, true)
  {
  }

  lemma TwoBytes(buf: seq<byte>, p: nat)
    requires p + 1 < |buf| && buf[p] >= 0x80 && buf[p + 1] < 0x80
    ensures ReadVarint(buf[p..]) == Got(buf[p] as int % 0x80 + 128 * (buf[p + 1] as int), 2)
  {
    assert buf[p..][1..][0] == buf[p + 1];
  }

  function ShiftDrop(d: (nat, nat, nat, Verdict), k: nat): (nat, nat, nat, Verdict) {
    (d.0, d.1, d.2 + k, d.3)
  }

  lemma DropNothing(buf: seq<byte>, p: nat, left: nat, vbytes: nat)
    requires p <= |buf| && vbytes < VARINT_MAX
    ensures left == 0 ==> DropVarints(buf[p..], left, vbytes) == (0, vbytes, 0, Through)
    ensures left > 0 && p == |buf| ==> DropVarints(buf[p..], left, vbytes) == (left, vbytes, 0, Short)
  {
  }

  lemma JoinStart(e: Elems)
    ensures e == Join([], 0, e)
  {
  }

  lemma FillNothing(words: seq<word>, at: nat)
    ensures at <= |words| ==> Fill(words, at, Slots([])) == words
  {
  }

  lemma JoinEnd(buf: seq<byte>, p: nat, signed: bool, lo: int, hi: int, done: seq<int>, used: nat)
    requires p <= |buf|
    ensures Join(done, used, ReadElems(buf[p..], 0, signed, lo, hi)) == Elems(done, used, Through)
  {
    assert done + [] == done;
  }

  /** Where the code skips the comparison, the element is within its bounds anyway. */
  lemma WidthTest(lo: Option<int>, hi: Option<int>, signed: bool, raw: word)
    ensures
      var v := Cooked(signed, raw);
      !(if raw < 0x80 then CheckFast(lo, hi, signed) else lo.Some? || hi.Some?) ==> Lo(lo) <= v <= Hi(hi)
  {
    if raw < 0x80 && !CheckFast(lo, hi, signed) {
      FastIsSound(lo, hi, signed, raw);
    }
  }
}

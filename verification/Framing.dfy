/**
 Lazy sequence framing: headers are held back until their sequence has
 content.  One pass over the operations is shown to write the canonical bytes
 of the tree the operations describe.
 */
module Framing {
  import opened Wire
  import opened Message

  datatype Op = Write(e: Event) | Open(id: int) | Close | CloseKeep

  /** What an encoder has written, which headers it holds back, how deep it is. */
  datatype Frames = Frames(out: seq<byte>, pending: seq<nat>, depth: nat)

  const START := Frames([], [], 0)

  predicate FramesOk(s: Frames) {
    && |s.pending| <= s.depth <= MAX_DEPTH
    && forall i | 0 <= i < |s.pending| :: s.pending[i] <= ID_MAX
  }

  /** The headers of a held-back run, outermost first. */
  function Headers(ids: seq<nat>): seq<byte> {
    if ids == [] then [] else Headers(ids[..|ids| - 1]) + Header(ids[|ids| - 1], SEQUENCE_START)
  }

  /** What the source refuses with an argument error, leaving everything as it was. */
  predicate Accepted(s: Frames, op: Op) {
    match op
    case Write(e) => IsField(e)
    case Open(id) => s.depth < MAX_DEPTH && 0 <= id <= ID_MAX
    case _ => s.depth > 0
  }

  function Step(s: Frames, op: Op): (t: Frames)
    requires FramesOk(s)
    ensures FramesOk(t)
  {
    if !Accepted(s, op) then s
    else match op
      case Write(e) => Frames(s.out + Headers(s.pending) + Emit(e), [], s.depth)
      case Open(id) => Frames(s.out, s.pending + [id], s.depth + 1)
      case Close =>
        if s.pending != [] then Frames(s.out, s.pending[..|s.pending| - 1], s.depth - 1)
        else Frames(s.out + [SEQUENCE_END], [], s.depth - 1)
      case CloseKeep => Frames(s.out + Headers(s.pending) + [SEQUENCE_END], [], s.depth - 1)
  }

  function Run(s: Frames, ops: seq<Op>): (t: Frames)
    requires FramesOk(s)
    ensures FramesOk(t)
    decreases |ops|
  {
    if ops == [] then s else Run(Step(s, ops[0]), ops[1..])
  }

  lemma {:induction false} RunAppends(s: Frames, a: seq<Op>, b: seq<Op>)
    requires FramesOk(s)
    ensures Run(s, a + b) == Run(Run(s, a), b)
    decreases |a|
  {
    if a == [] {
      assert a + b == b;
    } else {
      assert (a + b)[1..] == a[1..] + b;
      RunAppends(Step(s, a[0]), a[1..], b);
    }
  }

  /** The operations that write a tree: begin, contents, and the closer each frame asks for. */
  function Ops(f: Forest): seq<Op> {
    match f
    case Nil => []
    case Field(e, rest) => [Write(e)] + Ops(rest)
    case Nested(id, keep, kids, rest) =>
      [Open(id)] + (Ops(kids) + ([if keep then CloseKeep else Close] + Ops(rest)))
  }

  lemma CanonicalSteps(f: Forest)
    requires ForestOk(f)
    ensures f.Nil? ==> Canonical(f) == []
    ensures f.Field? ==> Canonical(f) == Emit(f.e) + Canonical(f.rest)
    ensures f.Nested? && Prune(f.kids).Nil? && !f.keep ==> Canonical(f) == Canonical(f.rest)
    ensures f.Nested? && !(Prune(f.kids).Nil? && !f.keep) ==>
      Canonical(f) == Header(f.id, SEQUENCE_START) + Canonical(f.kids) + [SEQUENCE_END] + Canonical(f.rest)
    ensures Prune(f).Nil? ==> Canonical(f) == []
  {
    PruneKeepsOk(f);
    EventsOk(Prune(f));
    match f
    case Nil =>
    case Field(e, rest) =>
      PruneKeepsOk(rest);
      EventsOk(Prune(rest));
      EmitAllAppends([e], Events(Prune(rest)));
      EmitOne(e);
    case Nested(id, keep, kids, rest) =>
      PruneKeepsOk(kids);
      PruneKeepsOk(rest);
      EventsOk(Prune(kids));
      EventsOk(Prune(rest));
      var a, b := Events(Prune(kids)), Events(Prune(rest));
      EmitAllAppends([Begin(id)], a);
      EmitAllAppends([Begin(id)] + a, [End]);
      EmitAllAppends([Begin(id)] + a + [End], b);
      EmitOne(Begin(id));
      EmitOne(End);
  }

  /** The state one pass over a tree's operations leaves, whatever it started from. */
  function After(s: Frames, f: Forest): Frames
    requires ForestOk(f)
  {
    if Prune(f).Nil? then s
    else Frames(s.out + Headers(s.pending) + Canonical(f), [], s.depth)
  }

  lemma Regroup(o: seq<byte>, p: seq<byte>, h: seq<byte>, c: seq<byte>, e: seq<byte>)
    ensures (o + (p + h)) + c + e == (o + p) + (h + c + e)
    ensures o + p + [] == o + p
  {
  }

  /** Appending a tree's bytes in two stages, the first of which commits the held-back run. */
  lemma TwoStages(s: Frames, first: seq<byte>, rest: Forest)
    requires FramesOk(s) && ForestOk(rest)
    ensures
      var t := Frames(s.out + Headers(s.pending) + first, [], s.depth);
      After(t, rest) == Frames(s.out + Headers(s.pending) + (first + Canonical(rest)), [], s.depth)
  {
    CanonicalSteps(rest);
    var o, c := s.out + Headers(s.pending), Canonical(rest);
    assert (o + first) + [] + c == o + (first + c);
    assert o + first == o + (first + []);
  }

  /** The frame and the contents of a nested sequence that reaches the wire. */
  function Framed(id: nat, kids: Forest): seq<byte>
    requires ForestOk(kids)
  {
    Header(id, SEQUENCE_START) + Canonical(kids) + [SEQUENCE_END]
  }

  /** A contentless sequence closed without keep vanishes: begin and end cancel. */
  lemma ClosesVanished(s: Frames, f: Forest)
    requires FramesOk(s) && ForestOk(f) && f.Nested? && s.depth < MAX_DEPTH
    requires Prune(f.kids).Nil? && !f.keep
    ensures Step(After(Step(s, Open(f.id)), f.kids), Close) == s
  {
    var s1 := Step(s, Open(f.id));
    assert s1.pending[..|s1.pending| - 1] == s.pending;
  }

  /** Any other sequence puts the whole held-back run and its own frame on the wire. */
  lemma ClosesFramed(s: Frames, f: Forest)
    requires FramesOk(s) && ForestOk(f) && f.Nested? && s.depth < MAX_DEPTH
    requires !(Prune(f.kids).Nil? && !f.keep)
    ensures
      Step(After(Step(s, Open(f.id)), f.kids), if f.keep then CloseKeep else Close) ==
      Frames(s.out + Headers(s.pending) + Framed(f.id, f.kids), [], s.depth)
  {
    CanonicalSteps(f.kids);
    var s1 := Step(s, Open(f.id));
    var h, c := Header(f.id, SEQUENCE_START), Canonical(f.kids);
    assert s1.pending[..|s1.pending| - 1] == s.pending;
    assert Headers(s1.pending) == Headers(s.pending) + h;
    Regroup(s.out, Headers(s.pending), h, c, [SEQUENCE_END]);
    if Prune(f.kids).Nil? {
      assert h + [] + [SEQUENCE_END] == h + c + [SEQUENCE_END];
      Regroup(s.out, Headers(s.pending), h, [], [SEQUENCE_END]);
      assert s.out + Headers(s1.pending) + [] == s.out + Headers(s1.pending);
    } else {
      assert Headers([]) == [];
      assert s1.out + Headers(s1.pending) + c + [] == s1.out + Headers(s1.pending) + c;
    }
  }

  /**
   Lazy framing equals batch pruning.  A tree whose pruned form is empty leaves
   the encoder exactly as it was; any other commits the held-back run once and
   writes its canonical bytes behind it.
   */
  lemma {:induction false} LazyWritesPruned(s: Frames, f: Forest)
    requires FramesOk(s) && ForestOk(f) && s.depth + Height(f) <= MAX_DEPTH
    ensures Run(s, Ops(f)) == After(s, f)
    decreases f
  {
    CanonicalSteps(f);
    match f
    case Nil =>
    case Field(e, rest) =>
      assert Ops(f)[0] == Write(e) && Ops(f)[1..] == Ops(rest);
      LazyWritesPruned(Step(s, Write(e)), rest);
      TwoStages(s, Emit(e), rest);
    case Nested(id, keep, kids, rest) =>
      var s1 := Step(s, Open(id));
      var close := if keep then CloseKeep else Close;
      var tail := [close] + Ops(rest);
      assert Ops(f)[0] == Open(id) && Ops(f)[1..] == Ops(kids) + tail;
      assert tail[0] == close && tail[1..] == Ops(rest);
      RunAppends(s1, Ops(kids), tail);
      LazyWritesPruned(s1, kids);
      if Prune(kids).Nil? && !keep {
        ClosesVanished(s, f);
        LazyWritesPruned(s, rest);
      } else {
        ClosesFramed(s, f);
        LazyWritesPruned(Frames(s.out + Headers(s.pending) + Framed(id, kids), [], s.depth), rest);
        TwoStages(s, Framed(id, kids), rest);
      }
  }

  /** A whole message: the one-pass output is the serialization of the pruned tree, with nothing held back. */
  lemma OnePassIsCanonical(f: Forest)
    requires ForestOk(f) && Height(f) <= MAX_DEPTH
    ensures Run(START, Ops(f)) == Frames(Canonical(f), [], 0)
  {
    LazyWritesPruned(START, f);
    CanonicalSteps(f);
    assert START.out + Headers([]) + Canonical(f) == Canonical(f);
  }

  // ----- the hold-back invariant ---------------------------------------------

  /** An open sequence, and whether anything in it has reached the wire. */
  datatype Scope = Scope(id: nat, content: bool)

  /** The open sequences, tracked independently of the encoder. */
  function Track(open: seq<Scope>, op: Op): seq<Scope>
    requires |open| <= MAX_DEPTH
  {
    if !Accepted(Frames([], [], |open|), op) then open
    else match op
      case Write(_) => AllContent(open)
      case Open(id) => open + [Scope(id, false)]
      case Close => open[..|open| - 1]
      case CloseKeep => AllContent(open)[..|open| - 1]
  }

  function AllContent(open: seq<Scope>): (r: seq<Scope>)
    ensures |r| == |open|
  {
    seq(|open|, i requires 0 <= i < |open| => open[i].(content := true))
  }

  /** The held-back run is exactly the contentless suffix of the open sequences. */
  predicate HoldsSuffix(s: Frames, open: seq<Scope>) {
    && |open| == s.depth && |s.pending| <= s.depth
    && (forall i | 0 <= i < s.depth - |s.pending| :: open[i].content)
    && forall i | s.depth - |s.pending| <= i < s.depth ::
         !open[i].content && open[i].id == s.pending[i - (s.depth - |s.pending|)]
  }

  lemma StepHoldsSuffix(s: Frames, open: seq<Scope>, op: Op)
    requires FramesOk(s) && HoldsSuffix(s, open)
    ensures HoldsSuffix(Step(s, op), Track(open, op))
  {
    assert Accepted(s, op) <==> Accepted(Frames([], [], |open|), op);
    hide Headers, Emit;
    if Accepted(s, op) {
      match op
      case Open(id) => assert (s.pending + [id])[|s.pending|] == id;
      case _ =>
    }
  }

  function TrackAll(open: seq<Scope>, ops: seq<Op>): seq<Scope>
    requires |open| <= MAX_DEPTH
    decreases |ops|
  {
    if ops == [] then open else TrackAll(Track(open, ops[0]), ops[1..])
  }

  /** After any operations at all, accepted or refused, in any order. */
  lemma {:induction false} RunHoldsSuffix(s: Frames, open: seq<Scope>, ops: seq<Op>)
    requires FramesOk(s) && HoldsSuffix(s, open)
    ensures HoldsSuffix(Run(s, ops), TrackAll(open, ops))
    ensures |Run(s, ops).pending| <= MAX_DEPTH
    decreases |ops|
  {
    if ops != [] {
      StepHoldsSuffix(s, open, ops[0]);
      RunHoldsSuffix(Step(s, ops[0]), Track(open, ops[0]), ops[1..]);
    }
  }

  // ----- balanced operations are trees ----------------------------------------

  function DepthAfter(op: Op, d: int): int {
    match op
    case Write(_) => d
    case Open(_) => d + 1
    case _ => d - 1
  }

  /** Every operation accepted, from `d` open sequences down to none. */
  predicate Balanced(ops: seq<Op>, d: nat) {
    && d <= MAX_DEPTH
    && if ops == [] then d == 0
       else Accepted(Frames([], [], d), ops[0]) && Balanced(ops[1..], DepthAfter(ops[0], d))
  }

  /** The trees at the front of a balanced list, up to the closer that is not theirs. */
  lemma {:induction false} FrontForest(ops: seq<Op>, d: nat) returns (f: Forest, rest: seq<Op>)
    requires Balanced(ops, d)
    ensures ops == Ops(f) + rest && ForestOk(f) && d + Height(f) <= MAX_DEPTH
    ensures Balanced(rest, d) && |rest| <= |ops| && (rest != [] ==> rest[0].Close? || rest[0].CloseKeep?)
    decreases |ops|
  {
    f, rest := Nil, ops;
    if ops != [] && ops[0].Write? {
      var tail;
      tail, rest := FrontForest(ops[1..], d);
      f := Field(ops[0].e, tail);
      assert ops == [ops[0]] + Ops(tail) + rest;
    } else if ops != [] && ops[0].Open? {
      var kids, inner := FrontForest(ops[1..], d + 1);
      assert inner != [];
      var keep := inner[0].CloseKeep?;
      var tail;
      tail, rest := FrontForest(inner[1..], d);
      f := Nested(ops[0].id, keep, kids, tail);
      SplitTree(ops[0], Ops(kids), inner[0], Ops(tail), rest);
      assert ops == [ops[0]] + (Ops(kids) + inner) && inner == [inner[0]] + (Ops(tail) + rest);
    }
  }

  lemma SplitTree(open: Op, kids: seq<Op>, close: Op, tail: seq<Op>, rest: seq<Op>)
    ensures [open] + (kids + ([close] + (tail + rest))) == [open] + (kids + ([close] + tail)) + rest
  {
  }

  /**
   Every balanced list of operations writes the canonical bytes of a tree: the
   one whose fields and frames the operations name in order.
   */
  lemma BalancedIsCanonical(ops: seq<Op>) returns (f: Forest)
    requires Balanced(ops, 0)
    ensures ForestOk(f) && Height(f) <= MAX_DEPTH && Ops(f) == ops
    ensures Run(START, ops) == Frames(Canonical(f), [], 0)
  {
    var rest;
    f, rest := FrontForest(ops, 0);
    assert rest == [];
    assert Ops(f) + [] == Ops(f);
    OnePassIsCanonical(f);
  }
}

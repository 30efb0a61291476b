/**
 What INCOMPLETE means.  A decode that is not ended can be completed by further
 bytes, but for two cases the decoder sees only later: a word of a header that
 no ending can make good, and a text whose bytes at hand begin none.
 */
module Completing {
  import opened Wire
  import opened Message
  import opened Schema
  import opened Machine
  import Chunks
  import Skips
  import Skipped
  import R = RoundTrip
  import F = Floats
  import Utf8

  // ----- words ------------------------------------------------------------------------

  /** The last byte says that one more follows. */
  predicate Open(s: seq<byte>) {
    s != [] && s[|s| - 1] >= 128
  }

  /** A zero byte ends a word that has begun, and no other ending gives it a smaller value. */
  lemma {:induction false} ZeroFrom(s: seq<byte>, ext: seq<byte>, k: nat)
    requires k <= 9 && VarintFrom(s, k).More?
    ensures forall i | 0 <= i < |s| :: s[i] >= 128
    ensures VarintFrom(s + [0], k).Got? && VarintFrom(s + [0], k).len == |s| + 1
    ensures
      var z, v := VarintFrom(s + [0], k), VarintFrom(s + ext, k);
      v.Got? ==> v.len > |s| && z.value <= v.value && (s != [] ==> z.value % 128 == v.value % 128)
    decreases |s|
  {
    if s == [] {
      assert s + [0] == [0] && s + ext == ext;
      FromBelow(ext, k);
    } else {
      assert s[0] >= 128 && k < 9;
      ZeroFrom(s[1..], ext, k + 1);
      OneOn(s, [0], k);
      OneOn(s, ext, k);
      hide VarintFrom;
      assert forall i | 0 < i < |s| :: s[i] == s[1..][i - 1];
    }
  }

  lemma OneOn(s: seq<byte>, ext: seq<byte>, k: nat)
    requires s != [] && s[0] >= 128 && k < 9
    ensures
      var r, v := VarintFrom(s[1..] + ext, k + 1), VarintFrom(s + ext, k);
      && (r.Got? <==> v.Got?) && (r.More? <==> v.More?)
      && (v.Got? ==> v.len == r.len + 1 && v.value == s[0] - 128 + 128 * r.value && v.value % 128 == s[0] - 128)
  {
    assert (s + ext)[1..] == s[1..] + ext && (s + ext)[0] == s[0];
  }

  lemma FromBelow(s: seq<byte>, k: nat)
    requires k <= 9
    ensures VarintFrom(s, k).Got? ==> VarintFrom(s, k).len > 0
  {
    VarintFromBounds(s, k);
  }

  /** A word that has begun, ended in the least way and in any other. */
  lemma ZeroEnds(s: seq<byte>, ext: seq<byte>)
    requires ReadVarint(s).More?
    ensures s != [] ==> Open(s)
    ensures ReadVarint(s + [0]).Got? && ReadVarint(s + [0]).len == |s| + 1
    ensures
      var z, v := ReadVarint(s + [0]), ReadVarint(s + ext);
      v.Got? && s != [] ==>
        v.len > |s| && z.value <= v.value && z.value % 8 == v.value % 8 && z.value / 8 <= v.value / 8 &&
        (v.value < 128 ==> z.value == v.value)
  {
    ZeroFrom(s, ext, 0);
    var z, v := ReadVarint(s + [0]), ReadVarint(s + ext);
    if v.Got? && s != [] {
      SameLow(z.value, v.value);
    }
  }

  lemma SameLow(z: nat, v: nat)
    requires z <= v && z % 128 == v % 128
    ensures z % 8 == v % 8 && z / 8 <= v / 8 && (v < 128 ==> z == v)
  {
    var q := v / 128 - z / 128;
    assert v == z + 8 * (16 * q) && q >= 0;
    EightMore(z, 16 * q);
  }

  lemma EightMore(z: nat, q: nat)
    ensures (z + 8 * q) % 8 == z % 8 && (z + 8 * q) / 8 == z / 8 + q
  {
  }

  lemma OneByte(b: byte)
    requires b < 128
    ensures ReadVarint([b]) == Got(b, 1)
  {
  }

  // ----- headers ----------------------------------------------------------------------

  /** The part of a header behind its first word is completed by these bytes. */
  predicate TailEnds(cfg: Config, wt: nat, id: nat, t: seq<byte>, ext: seq<byte>, depth: nat) {
    var h := HeadTail(cfg, wt, id, t + ext, depth);
    h.Head? && h.used == |t + ext|
  }

  lemma TailCompletes(cfg: Config, wt: nat, id: nat, t: seq<byte>, depth: nat) returns (ext: seq<byte>)
    requires wt < 8 && HeadTail(cfg, wt, id, t, depth).HeadShort?
    requires Open(t) ==> !HeadTail(cfg, wt, id, t + [0], depth).HeadBad?
    ensures TailEnds(cfg, wt, id, t, ext, depth)
  {
    hide ReadVarint, Announced, Capped;
    ReadVarintBounds(t);
    if wt == ARRAY_FIXLEN {
      ext := FArrayCompletes(cfg, id, t);
    } else {
      ZeroEnds(t, []);
      ext := [0];
      if t == [] && wt == FIXLEN {
        ext := [2];
        OneByte(2);
        assert t + [2] == [2];
        assert Announced(Payload(2, 0)) by { StringOk(); }
      } else if t == [] {
        OneByte(0);
        assert t + [0] == [0];
      }
    }
  }

  lemma StringOk()
    ensures Announced(Payload(2, 0))
  {
  }

  lemma FArrayCompletes(cfg: Config, id: nat, t: seq<byte>) returns (ext: seq<byte>)
    requires FArrayHead(cfg, id, t).HeadShort?
    requires Open(t) ==> !FArrayHead(cfg, id, t + [0]).HeadBad?
    ensures
      var h := FArrayHead(cfg, id, t + ext);
      h.Head? && h.used == |t + ext|
  {
    hide ReadVarint, Capped;
    ReadVarintBounds(t);
    OneByte(0);
    OneByte(0x20);
    if ReadVarint(t).More? {
      ZeroEnds(t, []);
      ReadVarintExtends(t + [0], [0x20]);
      ext := [0, 0x20];
      assert t + [0, 0x20] == t + [0] + [0x20];
      assert (t + [0] + [0x20])[|t| + 1..] == [0x20];
      if t == [] {
        assert t + [0] == [0];
      }
    } else {
      var n := ReadVarint(t).len;
      var u := t[n..];
      ZeroEnds(u, []);
      if u == [] {
        ext := [0x20];
        ReadVarintExtends(t, [0x20]);
        assert (t + [0x20])[n..] == u + [0x20] == [0x20];
      } else {
        ext := [0];
        assert Open(t) by { assert t[|t| - 1] == u[|u| - 1]; }
        ReadVarintExtends(t, [0]);
        assert (t + [0])[n..] == u + [0];
      }
    }
  }

  /** A header whose last word has begun and can come to nothing: even its least ending is malformed. */
  predicate HeadDoomed(cfg: Config, s: seq<byte>, depth: nat) {
    Open(s) && ParseHead(cfg, s + [0], depth).HeadBad?
  }

  /** The first word in hand, a header is what its tail is. */
  lemma HeadIsTail(cfg: Config, s: seq<byte>, ext: seq<byte>, depth: nat, word: nat, n: nat)
    requires ReadVarint(s) == Got(word, n) && word / 8 <= ID_MAX
    ensures 1 <= n <= |s|
    ensures
      var h, t := ParseHead(cfg, s + ext, depth), HeadTail(cfg, word % 8, word / 8, s[n..] + ext, depth);
      && (h.HeadShort? <==> t.HeadShort?) && (h.HeadBad? <==> t.HeadBad?)
      && (h.Head? ==> h.used == t.used + n)
  {
    hide HeadTail, ReadVarint;
    ReadVarintExtends(s, ext);
    ReadVarintBounds(s);
    assert (s + ext)[n..] == s[n..] + ext;
  }

  lemma HeadCompletes(cfg: Config, s: seq<byte>, depth: nat) returns (ext: seq<byte>)
    requires s != [] && ParseHead(cfg, s, depth).HeadShort? && !HeadDoomed(cfg, s, depth)
    ensures
      var h := ParseHead(cfg, s + ext, depth);
      h.Head? && h.used == |s + ext|
  {
    hide HeadTail, ReadVarint;
    if ReadVarint(s).Got? {
      var word, n := ReadVarint(s).value, ReadVarint(s).len;
      HeadIsTail(cfg, s, [], depth, word, n);
      HeadIsTail(cfg, s, [0], depth, word, n);
      assert s + [] == s && s[n..] + [] == s[n..];
      assert Open(s[n..]) ==> Open(s);
      ext := TailCompletes(cfg, word % 8, word / 8, s[n..], depth);
      HeadIsTail(cfg, s, ext, depth, word, n);
    } else {
      ZeroEnds(s, []);
      var z := s + [0];
      var word := ReadVarint(z).value;
      HeadIsTail(cfg, z, [], depth, word, |z|);
      assert z[|z|..] == [] && z + [] == z;
      if ParseHead(cfg, z, depth).Head? {
        ext := [0];
        HeadTailBounds(cfg, word % 8, word / 8, [], depth);
      } else {
        var more := TailCompletes(cfg, word % 8, word / 8, [], depth);
        HeadIsTail(cfg, z, more, depth, word, |z|);
        ext := [0] + more;
        assert s + ext == z + more;
      }
    }
  }

  /** Such a tail stays without an ending that is good. */
  lemma TailDoomed(cfg: Config, wt: nat, id: nat, t: seq<byte>, ext: seq<byte>, depth: nat)
    requires wt < 8 && HeadTail(cfg, wt, id, t, depth).HeadShort? && Open(t)
    requires HeadTail(cfg, wt, id, t + [0], depth).HeadBad?
    ensures !HeadTail(cfg, wt, id, t + ext, depth).Head?
  {
    hide ReadVarint, Capped;
    ReadVarintBounds(t);
    if wt == ARRAY_FIXLEN {
      FArrayDoomed(cfg, id, t, ext);
    } else {
      ZeroEnds(t, ext);
    }
  }

  lemma FArrayDoomed(cfg: Config, id: nat, t: seq<byte>, ext: seq<byte>)
    requires FArrayHead(cfg, id, t).HeadShort? && Open(t)
    requires FArrayHead(cfg, id, t + [0]).HeadBad?
    ensures !FArrayHead(cfg, id, t + ext).Head?
  {
    hide ReadVarint, Capped;
    ReadVarintBounds(t);
    if ReadVarint(t).More? {
      ZeroEnds(t, ext);
      NoBytes();
      assert (t + [0])[|t| + 1..] == [];
    } else {
      var n := ReadVarint(t).len;
      ReadVarintExtends(t, [0]);
      ReadVarintExtends(t, ext);
      assert (t + [0])[n..] == t[n..] + [0] && (t + ext)[n..] == t[n..] + ext;
      ZeroEnds(t[n..], ext);
      if n == |t| {
        EndedIsNotOpen(t);
      }
    }
  }

  lemma DoomStays(cfg: Config, s: seq<byte>, ext: seq<byte>, depth: nat)
    requires ParseHead(cfg, s, depth).HeadShort? && HeadDoomed(cfg, s, depth)
    ensures !ParseHead(cfg, s + ext, depth).Head?
  {
    hide ReadVarint, HeadTail;
    if ReadVarint(s).Got? {
      var word, n := ReadVarint(s).value, ReadVarint(s).len;
      HeadIsTail(cfg, s, [], depth, word, n);
      HeadIsTail(cfg, s, [0], depth, word, n);
      HeadIsTail(cfg, s, ext, depth, word, n);
      assert s + [] == s && s[n..] + [] == s[n..];
      if n < |s| {
        assert Open(s[n..]);
        TailDoomed(cfg, word % 8, word / 8, s[n..], ext, depth);
      } else {
        EndedIsNotOpen(s);
      }
    } else {
      ZeroEnds(s, ext);
      FirstDoomed(cfg, s, ext, depth);
    }
  }

  /** A word is ended by a byte that is not open. */
  lemma EndedIsNotOpen(s: seq<byte>)
    requires ReadVarint(s).Got? && ReadVarint(s).len == |s|
    ensures !Open(s)
  {
    LastOfWord(s, 0);
  }

  lemma {:induction false} LastOfWord(s: seq<byte>, k: nat)
    requires k <= 9 && VarintFrom(s, k).Got? && VarintFrom(s, k).len == |s|
    ensures !Open(s)
    decreases |s|
  {
    if k < 9 && s[0] >= 128 {
      LastOfWord(s[1..], k + 1);
    }
  }

  lemma FirstDoomed(cfg: Config, s: seq<byte>, ext: seq<byte>, depth: nat)
    requires ReadVarint(s).More? && s != []
    requires ParseHead(cfg, s + [0], depth).HeadBad?
    ensures !ParseHead(cfg, s + ext, depth).Head?
  {
    hide ReadVarint;
    ZeroEnds(s, ext);
    ReadVarintBounds(s + ext);
    assert (s + [0])[|s| + 1..] == [];
    NoBytes();
  }

  lemma NoBytes()
    ensures ReadVarint([]).More?
  {
  }

  // ----- values -----------------------------------------------------------------------

  function Zeros(n: nat): (s: seq<byte>)
    ensures |s| == n
  {
    seq<byte>(n, i requires 0 <= i < n => 0)
  }

  /** Zero bytes are a text, of zero characters. */
  lemma {:induction false} ZerosAreText(n: nat)
    ensures Utf8.Valid(Zeros(n))
  {
    if n > 0 {
      assert Zeros(n)[1..] == Zeros(n - 1);
      ZerosAreText(n - 1);
    }
  }

  /** Zero bytes end the varints that are missing. */
  lemma {:induction false} DropCompletes(s: seq<byte>, left: nat, k: nat) returns (ext: seq<byte>)
    requires k < VARINT_MAX && DropVarints(s, left, k).3.Short?
    ensures DropVarints(s + ext, left, k).3.Through? && DropVarints(s + ext, left, k).2 == |s + ext|
    decreases |s|, left
  {
    Chunks.DropByte(s, left, k);
    if s == [] {
      ext := Zeros(left);
      DropZeros(left, k);
      assert s + ext == ext;
    } else {
      if k == VARINT_MAX - 1 || s[0] < 128 {
        ext := DropCompletes(s[1..], left - 1, 0);
      } else {
        ext := DropCompletes(s[1..], left, k + 1);
      }
      assert (s + ext)[1..] == s[1..] + ext;
      Chunks.DropByte(s + ext, left, k);
    }
  }

  lemma {:induction false} DropZeros(left: nat, k: nat)
    requires k < VARINT_MAX
    ensures DropVarints(Zeros(left), left, k).3.Through? && DropVarints(Zeros(left), left, k).2 == left
  {
    if left == 0 {
      Chunks.DropNone(Zeros(left), k);
    } else {
      assert Zeros(left)[1..] == Zeros(left - 1);
      Chunks.DropByte(Zeros(left), left, k);
      DropZeros(left - 1, 0);
    }
  }

  /** No bytes that follow make a text of them. */
  ghost predicate TextDoomed(len: nat, s: seq<byte>) {
    forall t: seq<byte> :: |s| + |t| == len ==> !Utf8.IsText(s + t)
  }

  ghost predicate ValueDoomed(p: Pending, s: seq<byte>) {
    p.Payload? && p.st == STRING && TextDoomed(p.len, s)
  }

  /** A skip of the value ends with the last of these bytes, and a reader finds its text in order. */
  lemma SkipCompletes(m: M, s: seq<byte>) returns (ext: seq<byte>)
    requires Announced(m.pending) && SkipPending(m, s).Wait? && !ValueDoomed(m.pending, s)
    ensures SkipPending(m, s + ext).Next? && SkipPending(m, s + ext).used == |s + ext|
    ensures !Skips.BadText(m.pending, s + ext)
  {
    hide ReadVarint, DropVarints, Utf8.Valid, Utf8.IsText;
    var (nbytes, nvarints) := Extent(m.pending);
    if m.pending.Scalar? {
      ZeroEnds(s, []);
      ext := [0];
    } else if m.pending.VArray? {
      assert s[0..] == s;
      ext := DropCompletes(s, nvarints, 0);
      assert (s + ext)[0..] == s + ext;
    } else {
      if |s| >= nbytes {
        Chunks.DropNone(s[nbytes..], 0);
      }
      if m.pending.Payload? && m.pending.st == STRING {
        ext :| |s| + |ext| == nbytes && Utf8.IsText(s + ext);
        Utf8.ValidIff(s + ext);
        assert (s + ext)[..nbytes] == s + ext;
      } else {
        ext := Zeros(nbytes - |s|);
      }
      Chunks.DropNone((s + ext)[nbytes..], 0);
    }
  }

  // ----- a listener -------------------------------------------------------------------

  /** A listener between two fields, or about to be handed a value. */
  ghost predicate Listening(cfg: Config, m: M) {
    && R.Listens(cfg) && Ok(cfg, m) && m.visitor.Some? && m.table.None?
    && match m.phase
       case Walk => m.pending == Nothing
       case Take(_, row) => row.None? && Bare(m.pending) == m.pending
       case Skip(_) => false
  }

  lemma ListeningWalks(cfg: Config, m: M)
    requires Listening(cfg, m) && m.phase == Walk
    ensures R.Hears(cfg, m) && Machine.Depth(m) == |m.scopes|
  {
  }

  lemma VisitWaits(cfg: Config, m: M, id: nat, s: seq<byte>)
    requires m.visitor.Some? && Announced(m.pending)
    ensures Visit(cfg, m, id, s).Wait? ==> Visit(cfg, m, id, s) == Wait(m, 0)
  {
    hide ReadVarint, ReadElems, Utf8.Valid, IntsFit, BytesFit, FloatsFit;
    assert m.(pending := m.pending) == m;
  }

  /** A step keeps it one, and one that waits changes nothing. */
  lemma StepListens(cfg: Config, m: M, s: seq<byte>)
    requires Listening(cfg, m)
    ensures
      var o := Step(cfg, m, s);
      && (o.Next? ==> Listening(cfg, o.m) && o.used <= |s|)
      && (o.Wait? ==> o == Wait(m, 0))
  {
    StepSound(cfg, m, s);
    if m.phase.Take? {
      TakeListens(cfg, m, s);
    } else {
      ListeningWalks(cfg, m);
      if s == [] {
        Skipped.NothingThere(cfg, m, s);
      } else {
        Skipped.ListenerGoes(cfg, m, s);
        if Step(cfg, m, s).Next? {
          R.HeadHeard(cfg, m, s);
        }
        GoneListens(cfg, m, s);
      }
    }
  }

  lemma TakeListens(cfg: Config, m: M, s: seq<byte>)
    requires Listening(cfg, m) && m.phase.Take? && Sound(cfg, m, s, Step(cfg, m, s))
    ensures
      var o := Step(cfg, m, s);
      o == Visit(cfg, m, m.phase.id, s) && (o.Next? ==> Listening(cfg, o.m)) && (o.Wait? ==> o == Wait(m, 0))
  {
    Skipped.VisitQuiet(cfg, m, m.phase.id, s);
    VisitWaits(cfg, m, m.phase.id, s);
    hide Visit, TablesOk, ScopesOk, R.Listens;
  }

  lemma GoneListens(cfg: Config, m: M, s: seq<byte>)
    requires Listening(cfg, m) && m.phase == Walk && R.Hears(cfg, m)
    requires
      var h, o := ParseHead(cfg, s, |m.scopes|), Step(cfg, m, s);
      o.Next? ==>
        && Ok(cfg, o.m) && o.m.visitor.Some? && o.m.table.None? && (h.Head? ==> Bare(h.pending) == h.pending)
        && (if h.wt < SEQUENCE_START then o.m.phase == Take(h.id, None) && o.m.pending == h.pending && h.Head?
            else o.m.phase == Walk && o.m.pending == Nothing)
    ensures Step(cfg, m, s).Next? ==> Listening(cfg, Step(cfg, m, s).m)
  {
    hide Step, ParseHead, TablesOk, ScopesOk;
  }

  // ----- to the end of a message --------------------------------------------------------

  /** The bytes end a message. */
  predicate Ends(cfg: Config, m: M, s: seq<byte>)
    requires Ok(cfg, m)
  {
    R.AtBoundary(Run(cfg, m, s), s) && Run(cfg, m, s).m.scopes == []
  }

  lemma EndsBefore(cfg: Config, m: M, s: seq<byte>, n: M, used: nat)
    requires Ok(cfg, m) && Step(cfg, m, s) == Next(n, used)
    ensures Ok(cfg, n) && used <= |s| && (Ends(cfg, n, s[used..]) <==> Ends(cfg, m, s))
  {
    hide Step, Ok, Run;
    StepSound(cfg, m, s);
    Unfold(cfg, m, s);
  }

  /** End markers close what is open. */
  lemma {:induction false} CloseAll(cfg: Config, m: M) returns (ext: seq<byte>)
    requires R.Hears(cfg, m) && Ok(cfg, m)
    ensures Ends(cfg, m, ext)
    decreases |m.scopes|
  {
    hide R.Hears, Run, Ok, Step;
    R.FromHears(cfg, m);
    if m.scopes == [] {
      ext := [];
      Unfold(cfg, m, []);
      R.StepOnNothing(cfg, m);
    } else {
      NotTooDeep(cfg, m);
      var n := R.Told(cfg, m, End);
      ClosedTold(cfg, m);
      R.EventRuns(cfg, m, End, []);
      R.FromHears(cfg, n);
      var more := CloseAll(cfg, n);
      R.EventRuns(cfg, m, End, more);
      ext := Emit(End) + more;
      assert ext[|Emit(End)|..] == more;
    }
  }

  lemma NotTooDeep(cfg: Config, m: M)
    requires Ok(cfg, m) && m.scopes != []
    ensures EventOk(End) && 0 <= Shift(End, |m.scopes|) <= MAX_DEPTH
  {
  }

  lemma ClosedTold(cfg: Config, m: M)
    requires m.visitor.Some? && m.scopes != []
    ensures |R.Told(cfg, m, End).scopes| < |m.scopes|
  {
  }

  /** A value taken whole, and then the end of the message. */
  lemma FromTaken(cfg: Config, m: M, s: seq<byte>) returns (ext: seq<byte>)
    requires Listening(cfg, m) && m.phase.Take? && Step(cfg, m, s).Next? && Step(cfg, m, s).used == |s|
    ensures Ends(cfg, m, s + ext)
  {
    hide Run, Ends;
    assert Ok(cfg, m);
    StepListens(cfg, m, s);
    TakenWalks(cfg, m, s);
    hide Step, Ok, Listening;
    var n := Step(cfg, m, s).m;
    ext := CloseAll(cfg, n);
    Chunks.StepLasts(cfg, m, s, ext);
    assert (s + ext)[|s|..] == ext;
    EndsBefore(cfg, m, s + ext, n, |s|);
  }

  lemma TakenWalks(cfg: Config, m: M, s: seq<byte>)
    requires Listening(cfg, m) && m.phase.Take? && Step(cfg, m, s).Next?
    requires Listening(cfg, Step(cfg, m, s).m)
    ensures R.Hears(cfg, Step(cfg, m, s).m)
  {
    Skipped.VisitQuiet(cfg, m, m.phase.id, s);
    hide Visit, TablesOk, ScopesOk, R.Listens;
  }

  /** A value that is waited for. */
  lemma FromTake(cfg: Config, m: M, s: seq<byte>) returns (ext: seq<byte>)
    requires Listening(cfg, m) && m.phase.Take? && Step(cfg, m, s).Wait? && !ValueDoomed(m.pending, s)
    ensures Ends(cfg, m, s + ext)
  {
    hide Run, Ends, Ok, Step, Listening, SkipPending, Skips.BadText, ValueDoomed, Announced;
    ReadsAsSkipped(cfg, m, s);
    var some := SkipCompletes(m, s);
    ReadsAsSkipped(cfg, m, s + some);
    var more := FromTaken(cfg, m, s + some);
    ext := some + more;
    assert s + some + more == s + ext;
  }

  /** A listener takes a value where a skip of it ends. */
  lemma ReadsAsSkipped(cfg: Config, m: M, s: seq<byte>)
    requires Listening(cfg, m) && m.phase.Take?
    ensures Announced(m.pending)
    ensures
      var o, skip := Step(cfg, m, s), SkipPending(m, s);
      && (o.Wait? <==> skip.Wait?) && (o.Next? <==> skip.Next? && !Skips.BadText(m.pending, s))
      && (o.Next? ==> o.used == skip.used)
  {
    Skipped.ListenerAmple(cfg, m, m.phase.id);
    Skips.SkipAgreesWithRead(cfg, m, m.phase.id, s);
    hide Visit, SkipPending, Skips.BadText, TablesOk, ScopesOk, R.Listens;
  }

  /** A value whose header has just been read. */
  lemma FromHead(cfg: Config, m: M) returns (ext: seq<byte>)
    requires Listening(cfg, m)
    ensures Ends(cfg, m, ext)
  {
    hide Run, Ends;
    if m.phase.Take? {
      ReadsAsSkipped(cfg, m, []);
      StartsWell(m);
      StepListens(cfg, m, []);
      hide Step, Listening, SkipPending, Skips.BadText, ValueDoomed;
      if Step(cfg, m, []).Wait? {
        ext := FromTake(cfg, m, []);
      } else {
        ext := FromTaken(cfg, m, []);
      }
      assert [] + ext == ext;
    } else {
      ListeningWalks(cfg, m);
      ext := CloseAll(cfg, m);
    }
  }

  /** No value is malformed before its first byte. */
  lemma StartsWell(m: M)
    requires Announced(m.pending)
    ensures !SkipPending(m, []).Stop? && !Skips.BadText(m.pending, []) && !ValueDoomed(m.pending, [])
  {
    hide ReadVarint;
    NoBytes();
    if m.pending.Payload? {
      ZerosAreText(m.pending.len);
      Utf8.ValidIff(Zeros(m.pending.len));
      hide Utf8.IsText, Utf8.Valid;
      assert [] + Zeros(m.pending.len) == Zeros(m.pending.len);
      assert Utf8.Valid([]) by { ZerosAreText(0); assert Zeros(0) == []; }
    }
  }

  /** Between two fields, or in the words of a header. */
  lemma FromWalk(cfg: Config, m: M, s: seq<byte>) returns (ext: seq<byte>)
    requires Listening(cfg, m) && m.phase == Walk && Step(cfg, m, s).Wait? && !HeadDoomed(cfg, s, |m.scopes|)
    ensures Ends(cfg, m, s + ext)
  {
    hide Run, Ends, Step, ParseHead;
    assert Ok(cfg, m);
    ListeningWalks(cfg, m);
    hide Ok;
    if s == [] {
      ext := CloseAll(cfg, m);
      assert [] + ext == ext;
    } else {
      Skipped.ListenerGoes(cfg, m, s);
      var some := HeadCompletes(cfg, s, |m.scopes|);
      var t := s + some;
      Skipped.ListenerGoes(cfg, m, t);
      StepListens(cfg, m, t);
      hide Listening;
      var n := Step(cfg, m, t).m;
      var more := FromHead(cfg, n);
      Chunks.StepLasts(cfg, m, t, more);
      assert (t + more)[|t|..] == more;
      EndsBefore(cfg, m, t + more, n, |t|);
      ext := some + more;
      assert s + ext == t + more;
    }
  }

  /** Where a decode waits: a word, or a text, that no bytes make good. */
  ghost predicate Doomed(cfg: Config, m: M, held: seq<byte>) {
    if m.phase.Take? then ValueDoomed(m.pending, held) else HeadDoomed(cfg, held, |m.scopes|)
  }

  /** A run that waits can be completed. */
  lemma {:induction false} RunCompletes(cfg: Config, m: M, s: seq<byte>) returns (ext: seq<byte>)
    requires Listening(cfg, m) && Run(cfg, m, s).Wait?
    requires !Doomed(cfg, Run(cfg, m, s).m, s[Run(cfg, m, s).used..])
    ensures Ends(cfg, m, s + ext)
    decreases Measure(m, s)
  {
    hide Step, Ends, Ok, HeadDoomed, ValueDoomed;
    StepListens(cfg, m, s);
    ListeningIs(cfg, m);
    StepSound(cfg, m, s);
    Unfold(cfg, m, s);
    hide Run, Listening;
    var o := Step(cfg, m, s);
    if o.Next? {
      var rest := s[o.used..];
      assert rest[Run(cfg, o.m, rest).used..] == s[Run(cfg, m, s).used..];
      ext := RunCompletes(cfg, o.m, rest);
      Chunks.StepLasts(cfg, m, s, ext);
      assert (s + ext)[o.used..] == rest + ext;
      EndsBefore(cfg, m, s + ext, o.m, o.used);
    } else {
      assert s[0..] == s;
      if m.phase.Take? {
        ext := FromTake(cfg, m, s);
      } else {
        ext := FromWalk(cfg, m, s);
      }
    }
  }

  lemma ListeningIs(cfg: Config, m: M)
    requires Listening(cfg, m)
    ensures Ok(cfg, m) && (m.phase.Take? || m.phase == Walk) && R.Listens(cfg)
  {
  }

  /** A run that waits and is doomed never is. */
  lemma {:induction false} RunDoomed(cfg: Config, m: M, s: seq<byte>, ext: seq<byte>)
    requires Listening(cfg, m) && Run(cfg, m, s).Wait?
    requires Doomed(cfg, Run(cfg, m, s).m, s[Run(cfg, m, s).used..])
    ensures !Ends(cfg, m, s + ext)
    decreases Measure(m, s)
  {
    hide Step, Ends, Ok, HeadDoomed, ValueDoomed;
    StepListens(cfg, m, s);
    ListeningIs(cfg, m);
    StepSound(cfg, m, s);
    Unfold(cfg, m, s);
    hide Run, Listening;
    var o := Step(cfg, m, s);
    if o.Next? {
      var rest := s[o.used..];
      assert rest[Run(cfg, o.m, rest).used..] == s[Run(cfg, m, s).used..];
      RunDoomed(cfg, o.m, rest, ext);
      Chunks.StepLasts(cfg, m, s, ext);
      assert (s + ext)[o.used..] == rest + ext;
      EndsBefore(cfg, m, s + ext, o.m, o.used);
    } else {
      assert s[0..] == s;
      DoomedWaits(cfg, m, s, ext);
    }
  }

  lemma DoomedWaits(cfg: Config, m: M, s: seq<byte>, ext: seq<byte>)
    requires Listening(cfg, m) && Step(cfg, m, s).Wait? && Doomed(cfg, m, s)
    ensures !Ends(cfg, m, s + ext)
  {
    ListeningIs(cfg, m);
    if m.phase.Take? {
      ReadsAsSkipped(cfg, m, s + ext);
      StepListens(cfg, m, s + ext);
      TextStays(m, s, ext);
    } else {
      ListeningWalks(cfg, m);
      Skipped.ListenerGoes(cfg, m, s);
      DoomStays(cfg, s, ext, |m.scopes|);
      Skipped.ListenerGoes(cfg, m, s + ext);
      StepListens(cfg, m, s + ext);
    }
    hide Step, Ok, Listening, SkipPending, ParseHead, Doomed;
    Unfold(cfg, m, s + ext);
  }

  lemma TextStays(m: M, s: seq<byte>, ext: seq<byte>)
    requires Announced(m.pending) && ValueDoomed(m.pending, s) && SkipPending(m, s).Wait?
    ensures SkipPending(m, s + ext).Next? ==> Skips.BadText(m.pending, s + ext)
  {
    hide Utf8.Valid, Utf8.IsText;
    var len := m.pending.len;
    if |s| >= len {
      Chunks.DropNone(s[len..], 0);
    } else if |s + ext| >= len {
      var t := ext[..len - |s|];
      assert (s + ext)[..len] == s + t;
      Utf8.ValidIff(s + t);
    }
  }

  /**
   When can a decode be completed?  If it has not ended and is not waiting in a
   word, or a text, that no bytes make good: a listener's decode that is
   INVALID never becomes COMPLETE, and one that is INCOMPLETE can, but for
   those two cases.
   */
  lemma CompletableIff(cfg: Config, words: seq<word>, objects: seq<Obj>, s: seq<byte>)
    requires R.Listens(cfg)
    ensures Chunks.DecodeOk(cfg, R.Fresh(cfg, words, objects))
    ensures
      var start := R.Fresh(cfg, words, objects);
      var d := Chunks.Feed(cfg, start, s);
      (exists ext: seq<byte> :: Chunks.StatusOf(Chunks.Feed(cfg, start, s + ext)).Complete?) <==>
      d.Live? && !Doomed(cfg, d.m, d.held)
  {
    hide Run, Doomed;
    R.FreshHears(cfg, words, objects);
    var m := Start(cfg, words, objects);
    assert Listening(cfg, m);
    hide Listening, Ok;
    assert [] + s == s;
    var o := Run(cfg, m, s);
    forall ext: seq<byte>
      ensures
        Chunks.StatusOf(Chunks.Feed(cfg, R.Fresh(cfg, words, objects), s + ext)).Complete? <==> Ends(cfg, m, s + ext)
    {
      CompleteEnds(cfg, words, objects, s + ext);
    }
    if o.Stop? {
      forall ext: seq<byte>
        ensures !Ends(cfg, m, s + ext)
      {
        Chunks.RunPrefix(cfg, m, s, ext);
      }
    } else if Doomed(cfg, o.m, s[o.used..]) {
      forall ext: seq<byte>
        ensures !Ends(cfg, m, s + ext)
      {
        RunDoomed(cfg, m, s, ext);
      }
    } else {
      var ext := RunCompletes(cfg, m, s);
    }
  }

  lemma CompleteEnds(cfg: Config, words: seq<word>, objects: seq<Obj>, s: seq<byte>)
    requires R.Listens(cfg) && Ok(cfg, Start(cfg, words, objects))
    ensures
      Chunks.StatusOf(Chunks.Feed(cfg, R.Fresh(cfg, words, objects), s)).Complete? <==>
      Ends(cfg, Start(cfg, words, objects), s)
  {
    hide Run, Ok;
    assert [] + s == s;
  }
}

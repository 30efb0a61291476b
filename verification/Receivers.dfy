/**
 All receivers see the same messages.  Whatever a receiver binds, is handed or
 skips, its fields begin and end where a listener's do; as long as no verdict
 of its own ends the decode, it is COMPLETE where the listener's is.
 */
module Receivers {
  import opened Wire
  import opened Message
  import opened Schema
  import opened Machine
  import Chunks
  import Skips
  import Skipped
  import Bound
  import Handing
  import Caps
  import R = RoundTrip
  import C = Completing

  /** Any receiver's machine and a listener's, over the same bytes so far. */
  ghost predicate Aligned(cfg: Config, m: M, lcfg: Config, n: M) {
    && Ok(cfg, m) && C.Listening(lcfg, n) && Machine.Depth(m) == |n.scopes|
    && if m.pending == Nothing then n.phase == Walk
       else Announced(Bare(m.pending)) && n.phase.Take? && n.pending == Bare(m.pending)
  }

  /** Where a value ends, for whoever wants to know. */
  function Skim(p: Pending, s: seq<byte>): Out
    requires Announced(p)
  {
    SkipPending(Bound.Ear(p, 0), s)
  }

  /** A listener is handed a value where it ends, unless it is a text that is none. */
  lemma ListenedSkims(p: Pending, id: nat, s: seq<byte>)
    requires Announced(p) && Bare(p) == p
    ensures
      var v, k := Bound.Listened(p, id, s), Skim(p, s);
      && (v.Next? <==> k.Next? && !Skips.BadText(p, s)) && (v.Wait? <==> k.Wait?)
      && (v.Next? ==> v.used == k.used)
  {
    hide Skips.BadText;
    R.ListenerListens();
    var ear := Bound.Ear(p, id);
    Skipped.ListenerAmple(R.Listener(), ear, id);
    Skips.SkipAgreesWithRead(R.Listener(), ear, id, s);
    Skipped.SkipAlike(Bound.Ear(p, 0), ear, s);
    hide SkipPending, Visit;
  }

  /** The listener of the two. */
  lemma TwinSkims(cfg: Config, n: M, s: seq<byte>)
    requires C.Listening(cfg, n) && n.phase.Take?
    ensures Announced(n.pending)
    ensures
      var o, k := Step(cfg, n, s), Skim(n.pending, s);
      && (o.Next? <==> k.Next? && !Skips.BadText(n.pending, s)) && (o.Wait? <==> k.Wait?)
      && (o.Next? ==> o.used == k.used)
  {
    C.ReadsAsSkipped(cfg, n, s);
    hide Step, Skips.BadText;
    Skipped.SkipAlike(Bound.Ear(n.pending, 0), n, s);
  }

  /** And the receiver, whatever it does with the value. */
  lemma ReceiverSkims(cfg: Config, m: M, s: seq<byte>)
    requires Ok(cfg, m) && m.pending != Nothing && Announced(Bare(m.pending))
    ensures
      var o, k := Step(cfg, m, s), Skim(Bare(m.pending), s);
      && (o.Next? ==> k.Next? && o.used == k.used) && (o.Wait? ==> k.Wait?)
  {
    var p := Bare(m.pending);
    hide Skips.BadText, Skim, TakeMapped, Visit, TablesOk, ScopesOk;
    if m.phase.Take? {
      ListenedSkims(p, m.phase.id, s);
      if m.phase.row.Some? {
        var row := m.phase.row.value;
        Chunks.RowTakable(cfg, m);
        var e := Bound.MappedVerdict(m, row, m.phase.id, s);
        hide Bound.Listened, Bound.Suits, Select;
      } else {
        var e := Handing.VisitVerdict(cfg, m, m.phase.id, s);
        hide Bound.Listened, Handing.Does, Handing.InLayout, Caps.Offered;
      }
    } else {
      SkipSkims(m, s);
      hide SkipPending;
    }
  }

  lemma SkipSkims(m: M, s: seq<byte>)
    requires PendingOk(m.pending) && m.pending != Nothing && Announced(Bare(m.pending))
    ensures
      var o, k := SkipPending(m, s), Skim(Bare(m.pending), s);
      && (o.Next? <==> k.Next?) && (o.Wait? <==> k.Wait?) && (o.Next? ==> o.used == k.used)
  {
    Skipped.SkipAlike(m, Bound.Ear(Bare(m.pending), 0), s);
    Skipped.SkipAlike(Bound.Ear(Bare(m.pending), 0), Bound.Ear(Bare(m.pending), 0), s);
  }

  /** What a header leaves of a receiver that goes on: the value it announced, or one sequence more or less. */
  lemma DispatchAlike(cfg: Config, m: M, wt: nat, id: nat, sub: int)
    requires Ok(cfg, m) && m.phase == Walk && wt < 8 && id <= ID_MAX
    requires wt == SEQUENCE_END ==> m.scopes != []
    requires wt >= SEQUENCE_START ==> m.pending == Nothing
    requires wt < SEQUENCE_START ==> Announced(Bare(m.pending)) && TagOf(Bare(m.pending)) == (wt, sub)
    ensures
      var t := Dispatch(cfg, m, wt, id, sub);
      t.Go? ==>
        if wt < SEQUENCE_START then Machine.Depth(t.m) == |m.scopes| && Bare(t.m.pending) == Bare(m.pending)
        else
          !t.m.phase.Take? && t.m.pending == Nothing &&
          Machine.Depth(t.m) == |m.scopes| + if wt == SEQUENCE_START then 1 else -1
  {
    hide TablesOk, ScopesOk, Offer, Select, SlotsOk;
    if wt == SEQUENCE_START {
      Caps.RowSlots(cfg, m, id, wt, sub);
    } else if wt < SEQUENCE_START {
      OfferShape(cfg, m, id, wt, sub);
      hide Lookup, Mistyped;
    }
  }

  /** A header, on both sides. */
  lemma HeadAlike(cfg: Config, m: M, lcfg: Config, n: M, s: seq<byte>)
    requires Aligned(cfg, m, lcfg, n) && m.pending == Nothing && s != []
    ensures
      var a, b := Step(cfg, m, s), Step(lcfg, n, s);
      && (a.Next? ==> b.Next? && a.used == b.used <= |s| && Aligned(cfg, a.m, lcfg, b.m))
      && (a.Wait? ==> a == Wait(m, 0) && b == Wait(n, 0))
  {
    C.ListeningWalks(lcfg, n);
    StepSound(cfg, m, s);
    C.StepListens(lcfg, n, s);
    Skipped.ListenerGoes(lcfg, n, s);
    var depth := Machine.Depth(m);
    Skipped.SameHead(cfg, lcfg, s, depth);
    ParseHeadBounds(cfg, s, depth);
    ReceiverGoes(cfg, m, s);
    hide Step, ParseHead, Ok, C.Listening;
  }

  lemma ReceiverGoes(cfg: Config, m: M, s: seq<byte>)
    requires Ok(cfg, m) && m.pending == Nothing && s != []
    ensures
      var h, a := ParseHead(cfg, s, Machine.Depth(m)), Step(cfg, m, s);
      && (a.Next? ==>
            && h.Head? && a.used == h.used
            && (if h.wt < SEQUENCE_START then
                  Machine.Depth(a.m) == Machine.Depth(m) && Bare(a.m.pending) == Bare(h.pending)
                else
                  a.m.pending == Nothing &&
                  Machine.Depth(a.m) == Machine.Depth(m) + if h.wt == SEQUENCE_START then 1 else -1))
      && (a.Wait? ==> a == Wait(m, 0) && h.HeadShort?)
  {
    hide ParseHead, Dispatch, TablesOk, ScopesOk;
    var h := ParseHead(cfg, s, Machine.Depth(m));
    ParseHeadBounds(cfg, s, Machine.Depth(m));
    if h.Head? && m.phase.Walk? {
      DispatchAlike(cfg, m.(pending := h.pending), h.wt, h.id, h.sub);
    }
  }

  /** A value, on both sides; a skipped text may be none. */
  lemma ValueAlike(cfg: Config, m: M, lcfg: Config, n: M, s: seq<byte>)
    requires Aligned(cfg, m, lcfg, n) && m.pending != Nothing
    ensures
      var a, b := Step(cfg, m, s), Step(lcfg, n, s);
      && (a.Next? ==>
            Skips.BadText(n.pending, s) || (b.Next? && a.used == b.used <= |s| && Aligned(cfg, a.m, lcfg, b.m)))
      && (a.Wait? ==> b.Wait? && a.m.pending != Nothing)
  {
    ReceiverSkims(cfg, m, s);
    TwinSkims(lcfg, n, s);
    StepSound(cfg, m, s);
    C.StepListens(lcfg, n, s);
    TakenAlike(cfg, m, s);
    TwinTaken(lcfg, n, s);
    hide Step, Ok, C.Listening, Skim, Skips.BadText;
  }

  lemma TakenAlike(cfg: Config, m: M, s: seq<byte>)
    requires Ok(cfg, m) && m.pending != Nothing && Announced(Bare(m.pending))
    ensures
      var a := Step(cfg, m, s);
      && (a.Next? ==> a.m.pending == Nothing && Machine.Depth(a.m) == Machine.Depth(m))
      && (a.Wait? ==> a.m.pending != Nothing)
  {
    hide TakeMapped, Visit, TablesOk, ScopesOk, ReadVarint, DropVarints;
  }

  lemma TwinTaken(cfg: Config, n: M, s: seq<byte>)
    requires C.Listening(cfg, n) && n.phase.Take?
    ensures
      var b := Step(cfg, n, s);
      b.Next? ==> b.m.phase == Walk && |b.m.scopes| == |n.scopes|
  {
    hide TakeMapped, Visit, TablesOk, ScopesOk;
  }

  /** What a run has come to, between feeds. */
  function Outcome(o: Out, s: seq<byte>): Chunks.Status
    requires !o.Next? && (o.Wait? ==> o.used <= |s|)
  {
    Chunks.StatusOf(Chunks.Settled(o, s))
  }

  /** One step of both. */
  lemma StepAlike(cfg: Config, m: M, lcfg: Config, n: M, s: seq<byte>)
    requires Aligned(cfg, m, lcfg, n)
    ensures Ok(cfg, m) && Ok(lcfg, n)
    ensures
      var a, b := Step(cfg, m, s), Step(lcfg, n, s);
      && (a.Next? ==>
            || (n.phase.Take? && Skips.BadText(n.pending, s))
            || (b.Next? && a.used == b.used <= |s| && Aligned(cfg, a.m, lcfg, b.m)))
      && (a.Wait? ==> b.Wait? && a.used <= |s| && b.used <= |s| && Outcome(a, s) == Outcome(b, s))
  {
    StepSound(cfg, m, s);
    StepSound(lcfg, n, s);
    C.StepListens(lcfg, n, s);
    if m.pending != Nothing {
      ValueAlike(cfg, m, lcfg, n, s);
      hide Step, Ok, C.Listening, Skips.BadText;
    } else if s != [] {
      HeadAlike(cfg, m, lcfg, n, s);
      hide Step, Ok, C.Listening, Skips.BadText;
    } else {
      Skipped.NothingThere(cfg, m, s);
      Skipped.NothingThere(lcfg, n, s);
      BothDone(cfg, m, lcfg, n);
      hide Step, Ok, C.Listening, Skips.BadText;
    }
  }

  /** Out of sequences on one side is out of sequences on the other. */
  lemma BothDone(cfg: Config, m: M, lcfg: Config, n: M)
    requires Aligned(cfg, m, lcfg, n) && m.pending == Nothing
    ensures (m.phase == Walk && m.scopes == []) <==> (n.phase == Walk && n.scopes == [])
    ensures n.phase == Walk && n.pending == Nothing && !m.phase.Take?
  {
    hide TablesOk, ScopesOk;
  }

  /** A run that goes on comes to the same. */
  lemma Further(o: Out, k: nat, s: seq<byte>)
    requires k <= |s| && !o.Next? && (o.Wait? ==> o.used <= |s[k..]|)
    ensures Outcome(Later(o, k), s) == Outcome(o, s[k..])
  {
    if o.Wait? {
      assert s[k..][o.used..] == s[o.used + k..];
    }
  }

  /** Alike up to a verdict of the receiver's own, or a text that is none and that it skips. */
  lemma {:induction false} RunsAlike(cfg: Config, m: M, lcfg: Config, n: M, s: seq<byte>)
    requires Aligned(cfg, m, lcfg, n)
    ensures Ok(cfg, m) && Ok(lcfg, n)
    ensures
      var a, b := Run(cfg, m, s), Run(lcfg, n, s);
      a.Wait? ==> Skipped.TextBreaks(lcfg, n, s) || Outcome(a, s) == Outcome(b, s)
    decreases Measure(m, s)
  {
    hide Step, Ok, Aligned, Outcome, Run;
    StepAlike(cfg, m, lcfg, n, s);
    StepSound(cfg, m, s);
    Unfold(cfg, m, s);
    Unfold(lcfg, n, s);
    var a, b := Step(cfg, m, s), Step(lcfg, n, s);
    assert Chunks.Visits(lcfg, n, s, n, s);
    if a.Next? {
      if n.phase.Take? && Skips.BadText(n.pending, s) {
        assert Skipped.TextBreaks(lcfg, n, s);
      } else {
        var rest := s[a.used..];
        RunsAlike(cfg, a.m, lcfg, b.m, rest);
        Further(Run(cfg, a.m, rest), a.used, s);
        Further(Run(lcfg, b.m, rest), a.used, s);
        if Skipped.TextBreaks(lcfg, b.m, rest) {
          var q, t :| Chunks.Visits(lcfg, b.m, rest, q, t) && q.phase.Take? && Skips.BadText(q.pending, t);
          assert Chunks.Visits(lcfg, n, s, q, t);
        }
      }
    }
  }

  /**
   Any receiver against a listener, over the same bytes: unless it ends the
   decode, its status is the listener's, whatever its tables, its handler and
   its caps.  So what is malformed is so for all of them, but for a text that
   is none in a field the receiver skips.
   */
  lemma ReceiversAgree(cfg: Config, words: seq<word>, objects: seq<Obj>, lcfg: Config, s: seq<byte>)
    requires Ok(cfg, Start(cfg, words, objects)) && R.Listens(lcfg) && Ok(lcfg, Start(lcfg, words, objects))
    ensures
      var d := Chunks.Feed(cfg, R.Fresh(cfg, words, objects), s);
      var l := Chunks.Feed(lcfg, R.Fresh(lcfg, words, objects), s);
      d.Live? ==>
        Chunks.StatusOf(d) == Chunks.StatusOf(l) || Skipped.TextBreaks(lcfg, Start(lcfg, words, objects), s)
  {
    var m, n := Start(cfg, words, objects), Start(lcfg, words, objects);
    assert Aligned(cfg, m, lcfg, n);
    assert [] + s == s;
    hide Ok, Run, Skipped.TextBreaks, Aligned;
    RunsAlike(cfg, m, lcfg, n, s);
  }
}

/**
 UTF-8 validity as section 4 of RFC 3629 defines it, and the windowed check
 that decides it without ever holding more than one window.
 */
module Utf8 {
  import opened Wire

  const WINDOW: nat := 4096

  /** Octets of the character a lead octet announces; 0 for an octet that cannot lead. */
  function Announced(lead: byte): nat {
    if lead < 0x80 then 1
    else if 0xC2 <= lead <= 0xDF then 2
    else if 0xE0 <= lead <= 0xEF then 3
    else if 0xF0 <= lead <= 0xF4 then 4
    else 0
  }

  predicate Tail(b: byte) {
    0x80 <= b <= 0xBF
  }

  /** The second octet, whose range the lead narrows. */
  predicate Second(lead: byte, b: byte) {
    if lead == 0xE0 then 0xA0 <= b <= 0xBF
    else if lead == 0xED then 0x80 <= b <= 0x9F
    else if lead == 0xF0 then 0x90 <= b <= 0xBF
    else if lead == 0xF4 then 0x80 <= b <= 0x8F
    else Tail(b)
  }

  /** No octet at hand contradicts the character `s` starts with. */
  predicate Compatible(s: seq<byte>)
    requires s != []
  {
    && Announced(s[0]) > 0
    && (Announced(s[0]) > 1 && |s| > 1 ==> Second(s[0], s[1]))
    && (Announced(s[0]) > 2 && |s| > 2 ==> Tail(s[2]))
    && (Announced(s[0]) > 3 && |s| > 3 ==> Tail(s[3]))
  }

  /** `s` starts with a whole well-formed character. */
  predicate Starts(s: seq<byte>) {
    s != [] && Compatible(s) && Announced(s[0]) <= |s|
  }

  predicate Valid(s: seq<byte>) {
    s == [] || (Starts(s) && Valid(s[Announced(s[0])..]))
  }

  // ----- the characters themselves ------------------------------------------------

  /** A Unicode scalar value: a code point that is no surrogate. */
  predicate IsScalarValue(c: nat) {
    c <= 0xD7FF || 0xE000 <= c <= 0x10_FFFF
  }

  /** The value in groups of six bits, behind a lead that says how many there are. */
  function Encoding(c: nat): (out: seq<byte>)
    requires IsScalarValue(c)
    ensures out != []
  {
    if c < 0x80 then [c]
    else if c < 0x800 then [0xC0 + c / 64, 0x80 + c % 64]
    else if c < 0x1_0000 then [0xE0 + c / 4096, 0x80 + c / 64 % 64, 0x80 + c % 64]
    else [0xF0 + c / 262144, 0x80 + c / 4096 % 64, 0x80 + c / 64 % 64, 0x80 + c % 64]
  }

  predicate AllScalarValues(cs: seq<nat>) {
    forall i | 0 <= i < |cs| :: IsScalarValue(cs[i])
  }

  function EncodeText(cs: seq<nat>): seq<byte>
    requires AllScalarValues(cs)
  {
    if cs == [] then [] else Encoding(cs[0]) + EncodeText(cs[1..])
  }

  /** The octets are the encoding of some text. */
  ghost predicate IsText(s: seq<byte>) {
    exists cs :: AllScalarValues(cs) && EncodeText(cs) == s
  }

  /** Six more bits. */
  function Group(high: nat, b: byte): (c: nat)
    requires 0x80 <= b < 0xC0
    ensures c / 64 == high && c % 64 + 0x80 == b
  {
    high * 64 + (b as int - 0x80)
  }

  lemma Shifts(c: nat)
    ensures c / 4096 == c / 64 / 64 && c / 262144 == c / 64 / 64 / 64
  {
  }

  /** The character that octets start with. */
  function First(s: seq<byte>): nat
    requires Starts(s)
  {
    if s[0] < 0x80 then s[0]
    else if s[0] < 0xE0 then Group(s[0] as int - 0xC0, s[1])
    else if s[0] < 0xF0 then Group(Group(s[0] as int - 0xE0, s[1]), s[2])
    else Group(Group(Group(s[0] as int - 0xF0, s[1]), s[2]), s[3])
  }

  predicate Decodes(s: seq<byte>)
    requires Starts(s)
  {
    IsScalarValue(First(s)) && Encoding(First(s)) == s[..Announced(s[0])]
  }

  lemma TwoOctets(s: seq<byte>)
    requires Starts(s) && s[0] < 0xE0
    ensures Decodes(s)
  {
  }

  lemma ThreeOctets(s: seq<byte>)
    requires Starts(s) && 0xE0 <= s[0] < 0xF0
    ensures Decodes(s)
  {
    Shifts(First(s));
  }

  lemma FourOctets(s: seq<byte>)
    requires Starts(s) && 0xF0 <= s[0]
    ensures Decodes(s)
  {
    Shifts(First(s));
  }

  lemma FirstIs(s: seq<byte>)
    requires Starts(s)
    ensures Decodes(s)
  {
    hide Decodes;
    if s[0] < 0xE0 {
      TwoOctets(s);
    } else if s[0] < 0xF0 {
      ThreeOctets(s);
    } else {
      FourOctets(s);
    }
  }

  lemma FirstDecodes(s: seq<byte>) returns (c: nat)
    requires Valid(s) && s != []
    ensures IsScalarValue(c) && Encoding(c) <= s && Valid(s[|Encoding(c)|..])
  {
    hide Encoding, First, Announced, Compatible;
    c := First(s);
    FirstIs(s);
  }

  /** Whatever is valid stays so behind a character. */
  lemma FirstEncodes(c: nat, rest: seq<byte>)
    requires IsScalarValue(c)
    ensures Valid(Encoding(c) + rest) <==> Valid(rest)
  {
    EncodedStarts(c);
    hide Encoding, Compatible;
    StartsExtends(Encoding(c), rest);
    assert (Encoding(c) + rest)[|Encoding(c)|..] == rest;
    assert Encoding(c)[|Encoding(c)|..] + rest == rest;
  }

  lemma EncodedStarts(c: nat)
    requires IsScalarValue(c)
    ensures Starts(Encoding(c)) && Announced(Encoding(c)[0]) == |Encoding(c)|
  {
    if 0x800 <= c < 0x1_0000 {
      ThreeGroups(c);
    } else if c >= 0x1_0000 {
      FourGroups(c);
    }
  }

  lemma ThreeGroups(c: nat)
    requires 0x800 <= c < 0x1_0000 && IsScalarValue(c)
    ensures Starts(Encoding(c)) && Announced(Encoding(c)[0]) == |Encoding(c)|
  {
    Shifts(c);
  }

  lemma FourGroups(c: nat)
    requires 0x1_0000 <= c && IsScalarValue(c)
    ensures Starts(Encoding(c)) && Announced(Encoding(c)[0]) == |Encoding(c)|
  {
    Shifts(c);
  }

  /**
   Valid octets are exactly the encodings of texts, section 3 of RFC 3629:
   no surrogate, nothing beyond 0x10FFFF, no character in more octets than it
   needs.
   */
  lemma {:induction false} ValidIff(s: seq<byte>)
    ensures Valid(s) <==> IsText(s)
  {
    if Valid(s) {
      var cs := TextOf(s);
    }
    if cs :| AllScalarValues(cs) && EncodeText(cs) == s {
      TextIsValid(cs);
    }
  }

  lemma {:induction false} TextOf(s: seq<byte>) returns (cs: seq<nat>)
    requires Valid(s)
    ensures AllScalarValues(cs) && EncodeText(cs) == s
    decreases |s|
  {
    hide Valid, Encoding;
    if s == [] {
      cs := [];
    } else {
      var c := FirstDecodes(s);
      var tail := TextOf(s[|Encoding(c)|..]);
      cs := [c] + tail;
      assert cs[1..] == tail;
    }
  }

  lemma {:induction false} TextIsValid(cs: seq<nat>)
    requires AllScalarValues(cs)
    ensures Valid(EncodeText(cs))
    decreases |cs|
  {
    if cs != [] {
      TextIsValid(cs[1..]);
      FirstEncodes(cs[0], EncodeText(cs[1..]));
    }
  }

  // ----- the windowed check ---------------------------------------------------------

  /**
   The incremental codec primitive: octets it takes off the window, or None
   for malformed input.  Only on a non-final window may it leave the start of
   a character behind.
   */
  function Consume(w: seq<byte>, final: bool): Option<nat> {
    if w == [] then Some(0)
    else if Starts(w) then
      match Consume(w[Announced(w[0])..], final)
      case Some(n) => Some(n + Announced(w[0]))
      case None => None
    else if !final && Compatible(w) then Some(0)
    else None
  }

  lemma StartsExtends(w: seq<byte>, rest: seq<byte>)
    requires w != []
    ensures (w + rest)[0] == w[0]
    ensures Starts(w) ==> Starts(w + rest) && (w + rest)[Announced(w[0])..] == w[Announced(w[0])..] + rest
    ensures Starts(w + rest) ==> Compatible(w)
  {
    var s := w + rest;
    assert s[0] == w[0];
    assert |w| > 1 ==> s[1] == w[1];
    assert |w| > 2 ==> s[2] == w[2];
    assert |w| > 3 ==> s[3] == w[3];
  }

  /** What one window says about the whole of the payload that is left. */
  predicate Settles(w: seq<byte>, rest: seq<byte>, used: Option<nat>) {
    match used
    case None => !Valid(w + rest)
    case Some(n) =>
      && n <= |w|
      && (Valid(w + rest) <==> Valid((w + rest)[n..]))
      && (rest == [] ==> n == |w|)
      && (|w| >= 4 ==> n > 0)
  }

  lemma {:induction false} WindowStep(w: seq<byte>, rest: seq<byte>)
    ensures Settles(w, rest, Consume(w, rest == []))
    decreases |w|
  {
    var s := w + rest;
    assert s[0..] == s;
    if w != [] {
      StartsExtends(w, rest);
      var a := Announced(w[0]);
      if Starts(w) {
        WindowStep(w[a..], rest);
        var inner := Consume(w[a..], rest == []);
        if inner.Some? {
          assert s[a..][inner.value..] == s[a + inner.value..];
        }
      } else if rest == [] {
        assert s == w;
      }
    }
  }

  /** The part of the payload from `at` on is valid. */
  ghost predicate Fine(data: seq<byte>, at: nat, end: nat)
    requires at <= end <= |data|
  {
    Valid(data[at..end])
  }

  /** Validates `size` bytes of `data` from `start`, one window at a time. */
  method Utf8Valid(data: seq<byte>, start: nat, size: nat) returns (ok: bool)
    requires start + size <= |data|
    ensures ok <==> IsText(data[start..start + size])
    ensures ok <==> Valid(data[start..start + size])
  {
    ValidIff(data[start..start + size]);
    var pos := 0;
    while pos < size
      invariant 0 <= pos <= size
      invariant Fine(data, start, start + size) <==> Fine(data, start + pos, start + size)
    {
      var n := if size - pos > WINDOW then WINDOW else size - pos;
      var used := CheckWindow(data, start + pos, n, start + size);
      if used.None? {
        return false;
      }
      pos := pos + used.value;
    }
    return true;
  }

  /** One pass over the `n` bytes from `at`: a malformed octet, or progress towards the end. */
  method CheckWindow(data: seq<byte>, at: nat, n: nat, end: nat) returns (used: Option<nat>)
    requires at + n <= end <= |data|
    requires n > 0 && (at + n == end || n >= 4)
    ensures used.None? ==> !Fine(data, at, end)
    ensures used.Some? ==> 0 < used.value <= n && (Fine(data, at, end) <==> Fine(data, at + used.value, end))
  {
    var final := at + n >= end;
    var w := data[at..at + n];
    ghost var rest := data[at + n..end];
    assert data[at..end] == w + rest;
    WindowStep(w, rest);
    used := Consume(w, final);
    if used.Some? {
      assert data[at..end][used.value..] == data[at + used.value..end];
    }
  }
}

/**
 Byte vectors, the first of them shared by the implementations of the format,
 written by the model byte for byte: the numbering of the wire types, ZigZag,
 the order of bits and bytes and the layout of every kind of field.
 */
module Vectors {
  import opened Wire
  import opened Message
  import Utf8

  lemma Scalars()
    ensures EventOk(Int(0, false, 42)) && Emit(Int(0, false, 42)) == [0x00, 0x2A]
    ensures EventOk(Int(2, true, -42)) && Emit(Int(2, true, -42)) == [0x11, 0x53]
  {
    ZigzagBijection(-42, 0);
    assert Varint(0x2A) == [0x2A] && Varint(0x11) == [0x11] && Varint(0x53) == [0x53];
  }

  lemma Markers()
    ensures EventOk(Begin(3)) && Emit(Begin(3)) == [0x1E]
    ensures EventOk(End) && Emit(End) == [0x07]
  {
  }

  lemma SignedArray()
    ensures
      var e := Ints(3, true, [-42, -43, -44]);
      EventOk(e) && Emit(e) == [0x1C, 0x03, 0x53, 0x55, 0x57]
  {
    ZigzagBijection(-42, 0);
    ZigzagBijection(-43, 0);
    ZigzagBijection(-44, 0);
    assert Varint(0x53) == [0x53] && Varint(0x55) == [0x55] && Varint(0x57) == [0x57];
    hide Varint, ZigzagEncode;
    assert [-42, -43, -44][1..] == [-43, -44] && [-43, -44][1..] == [-44] && [-44][1..] == [];
    assert Elements(true, [-44]) == [0x57];
    assert Elements(true, [-43, -44]) == [0x55, 0x57];
    assert Elements(true, [-42, -43, -44]) == [0x53, 0x55, 0x57];
    assert Varint(0x1C) == [0x1C] && Varint(3) == [0x03] by { Short(0x1C); Short(3); }
  }

  lemma Short(v: nat)
    requires v < 128
    ensures Varint(v) == [v]
  {
  }

  /** 42, a sequence 3 of 42 and [-42, -43, -44], and -42. */
  lemma NestedWithArray()
    ensures
      var signed := Ints(3, true, [-42, -43, -44]);
      var es := [Int(0, false, 42), Begin(3), Int(0, false, 42), signed, End, Int(2, true, -42)];
      AllOk(es) &&
      EmitAll(es) == [0x00, 0x2A, 0x1E, 0x00, 0x2A, 0x1C, 0x03, 0x53, 0x55, 0x57, 0x07, 0x11, 0x53]
  {
    Scalars();
    Markers();
    SignedArray();
    hide Emit, EventOk, EmitAll;
    var a, b, c, d := Int(0, false, 42), Begin(3), Ints(3, true, [-42, -43, -44]), Int(2, true, -42);
    Flat(a, b, a, c, End, d);
  }

  lemma EmitFront(e: Event, es: seq<Event>)
    requires EventOk(e) && AllOk(es)
    ensures AllOk([e] + es) && EmitAll([e] + es) == Emit(e) + EmitAll(es)
  {
    hide Emit, EventOk;
    assert ([e] + es)[1..] == es;
  }

  lemma Flat(a: Event, b: Event, c: Event, d: Event, e: Event, f: Event)
    requires EventOk(a) && EventOk(b) && EventOk(c) && EventOk(d) && EventOk(e) && EventOk(f)
    ensures AllOk([a, b, c, d, e, f])
    ensures EmitAll([a, b, c, d, e, f]) == Emit(a) + (Emit(b) + (Emit(c) + (Emit(d) + (Emit(e) + Emit(f)))))
  {
    EmitOne(f);
    hide Emit, EventOk, EmitAll;
    var last := [f];
    EmitFront(e, last);
    var two := [e] + last;
    EmitFront(d, two);
    var three := [d] + two;
    EmitFront(c, three);
    var four := [c] + three;
    EmitFront(b, four);
    EmitFront(a, [b] + four);
    Listed(a, b, c, d, e, f);
  }

  lemma Listed<T>(a: T, b: T, c: T, d: T, e: T, f: T)
    ensures [a] + ([b] + ([c] + ([d] + ([e] + [f])))) == [a, b, c, d, e, f]
  {
  }

  /** A float and an array of one double. */
  lemma FloatPayloads()
    ensures Emit(Fixlen(0, FP32, [0x56, 0x0E, 0x49, 0x40])) == [0x02, 0x20, 0x56, 0x0E, 0x49, 0x40]
    ensures Emit(Floats(0, FP64, [0, 0, 0, 0, 0, 0, 0xF0, 0x3F])) ==
            [0x05, 0x01, 0x41, 0, 0, 0, 0, 0, 0, 0xF0, 0x3F]
  {
    Short(0x02);
    Short(0x20);
    Short(0x05);
    Short(0x01);
    Short(0x41);
    hide Varint;
  }

  /** A string and a blob. */
  lemma TextAndBytes()
    ensures
      var text := Fixlen(0, STRING, [0x48, 0x69]);
      EventOk(text) && Emit(text) == [0x02, 0x12, 0x48, 0x69]
    ensures Emit(Fixlen(0, BLOB, [1, 2, 3, 4, 5])) == [0x02, 0x2B, 1, 2, 3, 4, 5]
  {
    assert Utf8.Valid([0x48, 0x69]) by {
      assert [0x69][1..] == [] && Utf8.Valid([0x69]);
      assert [0x48, 0x69][1..] == [0x69];
    }
    Short(0x02);
    Short(0x12);
    Short(0x2B);
    hide Varint, Utf8.Valid;
  }

  lemma LowestFirst(b: byte, rest: seq<byte>)
    ensures Unsigned([b] + rest) == b + 0x100 * Unsigned(rest)
  {
    assert ([b] + rest)[1..] == rest;
  }

  /** Bytes count from the lowest up. */
  lemma FourBytes(a: byte, b: byte, c: byte, d: byte)
    ensures Unsigned([a, b, c, d]) == a + 0x100 * b + 0x1_0000 * c + 0x100_0000 * d
  {
    LowestFirst(d, []);
    LowestFirst(c, [d] + []);
    LowestFirst(b, [c] + ([d] + []));
    LowestFirst(a, [b] + ([c] + ([d] + [])));
    assert [a] + ([b] + ([c] + ([d] + []))) == [a, b, c, d];
    hide Unsigned;
  }
}

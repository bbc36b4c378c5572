/** The ABI forms of the attested structs and of a packet. */
module Encodings {
  import opened Wrappers
  import opened Bytes
  import opened Types
  import opened Abi

  // Tuples of words and tuples of byte strings.

  function Words(ws: seq<word>): (vs: Values)
    ensures HaveTypes(vs, Repeat(WordType, |ws|))
  {
    if ws == [] then Nil else Cons(Word(ws[0]), Words(ws[1..]))
  }

  function WordsOf(vs: Values): Option<seq<word>> {
    match vs
    case Nil => Some([])
    case Cons(Word(w), rest) => (match WordsOf(rest) case None => None case Some(ws) => Some([w] + ws))
    case _ => None
  }

  lemma {:induction false} WordsOfWords(ws: seq<word>)
    ensures WordsOf(Words(ws)) == Some(ws)
  {
    if ws != [] {
      WordsOfWords(ws[1..]);
      assert [ws[0]] + ws[1..] == ws;
    }
  }

  function Concat(ws: seq<word>): (b: bytes)
    ensures |b| == 32 * |ws|
  {
    if ws == [] then [] else ws[0] + Concat(ws[1..])
  }

  /** A tuple of words is encoded in place. */
  lemma {:induction false} WordsShape(ws: seq<word>, offset: nat)
    ensures var ps := EncodeFields(Words(ws), Repeat(WordType, |ws|));
            Heads(ps, offset) == Concat(ws) && Tails(ps) == [] && HeadLength(ps) == 32 * |ws|
    ensures !AnyDynamic(Repeat(WordType, |ws|))
  {
    if ws != [] {
      WordsShape(ws[1..], offset);
    }
  }

  function ByteStrings(bs: seq<bytes>): (vs: Values)
    ensures HaveTypes(vs, Repeat(BytesType, |bs|))
  {
    if bs == [] then Nil else Cons(Dynamic(bs[0]), ByteStrings(bs[1..]))
  }

  function ByteStringsOf(vs: Values): Option<seq<bytes>> {
    match vs
    case Nil => Some([])
    case Cons(Dynamic(b), rest) => (match ByteStringsOf(rest) case None => None case Some(bs) => Some([b] + bs))
    case _ => None
  }

  lemma {:induction false} ByteStringsOfByteStrings(bs: seq<bytes>)
    ensures ByteStringsOf(ByteStrings(bs)) == Some(bs)
  {
    if bs != [] {
      ByteStringsOfByteStrings(bs[1..]);
      assert [bs[0]] + bs[1..] == bs;
    }
  }

  function PairType(): Type { TupleType(Repeat(WordType, 2)) }

  function PacketsType(): Type { TupleType(TypeCons(WordType, TypeCons(ArrayType(PairType()), NoTypes))) }

  function PayloadType(): Type { TupleType(Repeat(BytesType, 5)) }

  function PacketType(): Type {
    TupleType(TypeCons(WordType, TypeCons(BytesType, TypeCons(BytesType, TypeCons(WordType,
      TypeCons(ArrayType(PayloadType()), NoTypes))))))
  }

  lemma PairIsStatic()
    ensures HeadSize(PairType()) == 64 && !IsDynamic(PairType())
  {
    WordsShape([ZERO, ZERO], 0);
    RepeatedHeadSizes(WordType, 2);
  }

  // A value on its own is encoded as a tuple of one field.

  function EncodeOne(v: Value, t: Type): bytes
    requires HasType(v, t)
  {
    Encode(Tuple(Cons(v, Nil)), TupleType(TypeCons(t, NoTypes)))
  }

  function DecodeOne(data: bytes, t: Type): Option<Value> {
    match DecodeAt(data, 0, TupleType(TypeCons(t, NoTypes)))
    case Some(Tuple(Cons(v, Nil))) => Some(v)
    case _ => None
  }

  lemma DecodeOneEncoded(v: Value, t: Type)
    requires HasType(v, t) && |EncodeOne(v, t)| < U256_SIZE
    ensures DecodeOne(EncodeOne(v, t), t) == Some(v)
  {
    var data := EncodeOne(v, t);
    assert data[0..0 + |data|] == data;
    DecodeEncoded(data, 0, Tuple(Cons(v, Nil)), TupleType(TypeCons(t, NoTypes)));
  }

  /** A word read as an unsigned 64-bit integer. */
  function U64Of(w: word): Option<u64> {
    var n := FromBigEndian(w);
    if n < U64_SIZE then Some(n) else None
  }

  lemma U64OfUint(n: u64)
    ensures U64Of(Uint(n)) == Some(n)
  {
    U64FitsWidth(n, 32);
    BigEndianRoundTrip(n, 32);
  }

  /** A tuple of two words, the form of a state attestation and of an attested commitment. */
  function PairValue(a: word, b: word): (v: Value)
    ensures HasType(v, PairType())
  {
    Tuple(Words([a, b]))
  }

  function PairOf(v: Value): Option<(word, word)> {
    if !v.Tuple? then None
    else match WordsOf(v.fields)
         case Some(ws) => if |ws| == 2 then Some((ws[0], ws[1])) else None
         case None => None
  }

  lemma PairOfValue(a: word, b: word)
    ensures PairOf(PairValue(a, b)) == Some((a, b))
  {
    WordsOfWords([a, b]);
  }

  lemma PairShape(a: word, b: word)
    ensures Encode(PairValue(a, b), PairType()) == a + b
  {
    WordsShape([a, b], 64);
    assert Concat([a, b][1..]) == b;
    assert Concat([a, b]) == a + b;
  }

  // State attestation.

  function EncodeState(height: u64, timestamp: u64): bytes {
    EncodeOne(PairValue(Uint(height), Uint(timestamp)), PairType())
  }

  function DecodeState(data: bytes): Option<(u64, u64)> {
    match DecodeOne(data, PairType())
    case None => None
    case Some(v) =>
      match PairOf(v)
      case None => None
      case Some((h, t)) =>
        match (U64Of(h), U64Of(t)) case (Some(height), Some(timestamp)) => Some((height, timestamp)) case _ => None
  }

  lemma EncodeStateShape(height: u64, timestamp: u64)
    ensures EncodeState(height, timestamp) == Uint(height) + Uint(timestamp)
  {
    var v := PairValue(Uint(height), Uint(timestamp));
    PairShape(Uint(height), Uint(timestamp));
    PairIsStatic();
    OneStatic(v, PairType());
  }

  /** A static value on its own is encoded as it is. */
  lemma OneStatic(v: Value, t: Type)
    requires HasType(v, t) && !IsDynamic(t)
    ensures EncodeOne(v, t) == Encode(v, t)
  {
    var ps := EncodeFields(Cons(v, Nil), TypeCons(t, NoTypes));
    assert EncodeFields(Nil, NoTypes) == NoParts;
    assert ps == Part(false, Encode(v, t), NoParts);
    assert Heads(ps.rest, HeadLength(ps)) == [] && Tails(ps) == [];
  }

  /** A dynamic one follows the offset 32. */
  lemma OneDynamic(v: Value, t: Type)
    requires HasType(v, t) && IsDynamic(t)
    ensures EncodeOne(v, t) == Uint(32) + Encode(v, t)
  {
    var ps := EncodeFields(Cons(v, Nil), TypeCons(t, NoTypes));
    assert EncodeFields(Nil, NoTypes) == NoParts;
    assert ps == Part(true, Encode(v, t), NoParts);
    OnePartShape(Encode(v, t));
  }

  lemma OnePartShape(b: bytes)
    ensures Join(Part(true, b, NoParts)) == Uint(32) + b
  {
    var ps := Part(true, b, NoParts);
    assert Heads(NoParts, 32 + |b|) == [] && Tails(NoParts) == [];
    assert HeadLength(ps) == 32;
    assert Heads(ps, 32) == Uint(32) + [];
    assert Tails(ps) == b + [];
  }

  lemma DecodeEncodeState(height: u64, timestamp: u64)
    ensures DecodeState(EncodeState(height, timestamp)) == Some((height, timestamp))
  {
    EncodeStateShape(height, timestamp);
    DecodeOneEncoded(PairValue(Uint(height), Uint(timestamp)), PairType());
    PairOfValue(Uint(height), Uint(timestamp));
    U64OfUint(height);
    U64OfUint(timestamp);
  }

  // Packet attestation.

  function Pairs(items: seq<PacketCompact>): (vs: Values)
    ensures Length(vs) == |items| && HaveTypes(vs, Repeat(PairType(), |items|))
  {
    if items == [] then Nil else Cons(PairValue(items[0].path, items[0].commitment), Pairs(items[1..]))
  }

  function PacketsValue(height: u64, items: seq<PacketCompact>): (v: Value)
    ensures HasType(v, PacketsType())
  {
    PairIsStatic();
    var vs := Cons(Array(Pairs(items)), Nil);
    assert HasType(vs.head, ArrayType(PairType()));
    assert HaveTypes(vs, TypeCons(ArrayType(PairType()), NoTypes));
    var fields := Cons(Word(Uint(height)), vs);
    assert HaveTypes(fields, TypeCons(WordType, TypeCons(ArrayType(PairType()), NoTypes)));
    Tuple(fields)
  }

  function EncodePackets(height: u64, items: seq<PacketCompact>): bytes {
    EncodeOne(PacketsValue(height, items), PacketsType())
  }

  function CompactsOf(vs: Values): Option<seq<PacketCompact>> {
    match vs
    case Nil => Some([])
    case Cons(v, rest) =>
      match (PairOf(v), CompactsOf(rest))
      case (Some((path, commitment)), Some(items)) => Some([PacketCompact(path, commitment)] + items)
      case _ => None
  }

  function DecodePackets(data: bytes): Option<(u64, seq<PacketCompact>)> {
    match DecodeOne(data, PacketsType())
    case Some(Tuple(Cons(Word(h), Cons(Array(vs), Nil)))) =>
      (match (U64Of(h), CompactsOf(vs)) case (Some(height), Some(items)) => Some((height, items)) case _ => None)
    case _ => None
  }

  lemma {:induction false} CompactsOfPairs(items: seq<PacketCompact>)
    ensures CompactsOf(Pairs(items)) == Some(items)
  {
    if items != [] {
      PairOfValue(items[0].path, items[0].commitment);
      CompactsOfPairs(items[1..]);
      assert [items[0]] + items[1..] == items;
    }
  }

  /** For any list whose encoding has a 256-bit length. */
  lemma DecodeEncodePackets(height: u64, items: seq<PacketCompact>)
    requires |EncodePackets(height, items)| < U256_SIZE
    ensures DecodePackets(EncodePackets(height, items)) == Some((height, items))
  {
    DecodeOneEncoded(PacketsValue(height, items), PacketsType());
    CompactsOfPairs(items);
    U64OfUint(height);
  }

  // The bytes of a packet attestation, spelled out.

  function Flat(items: seq<PacketCompact>): (b: bytes)
    ensures |b| == 64 * |items|
  {
    if items == [] then [] else items[0].path + items[0].commitment + Flat(items[1..])
  }

  lemma {:induction false} PairsShape(items: seq<PacketCompact>, offset: nat)
    ensures var ps := EncodeFields(Pairs(items), Repeat(PairType(), |items|));
            Heads(ps, offset) == Flat(items) && Tails(ps) == []
  {
    if items != [] {
      PairIsStatic();
      PairShape(items[0].path, items[0].commitment);
      PairsShape(items[1..], offset);
    }
  }

  lemma PairsJoined(items: seq<PacketCompact>)
    ensures Join(EncodeFields(Pairs(items), Repeat(PairType(), |items|))) == Flat(items)
  {
    var ps := EncodeFields(Pairs(items), Repeat(PairType(), |items|));
    PairsShape(items, HeadLength(ps));
    assert Join(ps) == Flat(items) + [];
  }

  lemma ListShape(items: seq<PacketCompact>)
    ensures HasType(Array(Pairs(items)), ArrayType(PairType()))
    ensures Encode(Array(Pairs(items)), ArrayType(PairType())) == Uint(|items|) + Flat(items)
  {
    PairIsStatic();
    PairsJoined(items);
    ArrayShape(Pairs(items), PairType());
  }

  lemma ArrayShape(vs: Values, t: Type)
    requires HasType(Array(vs), ArrayType(t))
    ensures Encode(Array(vs), ArrayType(t)) == Uint(Length(vs)) + Join(EncodeFields(vs, Repeat(t, Length(vs))))
  {
  }

  lemma PacketsFields(height: u64, items: seq<PacketCompact>)
    ensures EncodeFields(PacketsValue(height, items).fields, PacketsType().fields) ==
            Part(false, Uint(height), Part(true, Uint(|items|) + Flat(items), NoParts))
  {
    ListShape(items);
    var vs := Cons(Array(Pairs(items)), Nil);
    var ts := TypeCons(ArrayType(PairType()), NoTypes);
    assert EncodeFields(Nil, NoTypes) == NoParts;
    assert HaveTypes(vs, ts);
    assert EncodeFields(vs, ts) == Part(true, Uint(|items|) + Flat(items), NoParts);
  }

  /** The offset of the struct, its word in place, the offset of its list, the list. */
  function WordAndList(head: word, list: bytes): bytes {
    Uint(32) + (head + Uint(64) + list)
  }

  lemma WordAndListShape(v: Value, t: Type, head: word, list: bytes)
    requires HasType(v, t) && v.Tuple? && IsDynamic(t)
    requires EncodeFields(v.fields, t.fields) == Part(false, head, Part(true, list, NoParts))
    ensures EncodeOne(v, t) == WordAndList(head, list)
  {
    OneDynamic(v, t);
    HeadAndTail(head, list);
  }

  lemma EncodePacketsShape(height: u64, items: seq<PacketCompact>)
    ensures EncodePackets(height, items) == WordAndList(Uint(height), Uint(|items|) + Flat(items))
  {
    PacketsFields(height, items);
    WordAndListShape(PacketsValue(height, items), PacketsType(), Uint(height), Uint(|items|) + Flat(items));
  }

  lemma HeadAndTail(head: word, list: bytes)
    ensures Join(Part(false, head, Part(true, list, NoParts))) == head + Uint(64) + list
  {
    var last := Part(true, list, NoParts);
    var ps := Part(false, head, last);
    assert HeadLength(last) == 32 && HeadLength(ps) == 64;
    assert Heads(last, 64) == Uint(64) + [];
    assert Tails(last) == list + [];
  }

  lemma {:induction false} FlatInjective(items: seq<PacketCompact>, others: seq<PacketCompact>)
    requires Flat(items) == Flat(others)
    ensures items == others
  {
    assert |items| == |others|;
    if items != [] {
      var a, b := Flat(items), Flat(others);
      assert a[..32] == items[0].path && b[..32] == others[0].path;
      assert a[32..64] == items[0].commitment && b[32..64] == others[0].commitment;
      assert a[64..] == Flat(items[1..]) && b[64..] == Flat(others[1..]);
      FlatInjective(items[1..], others[1..]);
      assert items == [items[0]] + items[1..] && others == [others[0]] + others[1..];
    }
  }

  /** Lists of any length, even those too long for their length word. */
  lemma EncodePacketsInjective(h: u64, items: seq<PacketCompact>, g: u64, others: seq<PacketCompact>)
    requires EncodePackets(h, items) == EncodePackets(g, others)
    ensures h == g && items == others
  {
    EncodePacketsShape(h, items);
    EncodePacketsShape(g, others);
    PacketsParts(Uint(h), Uint(|items|), Flat(items));
    PacketsParts(Uint(g), Uint(|others|), Flat(others));
    BigEndianInjective(h, g, 32);
    FlatInjective(items, others);
  }

  lemma PacketsParts(height: word, count: word, items: bytes)
    ensures var data := WordAndList(height, count + items);
            data[32..64] == height && data[128..] == items
  {
  }

  lemma EncodeStateInjective(h: u64, t: u64, g: u64, u: u64)
    requires EncodeState(h, t) == EncodeState(g, u)
    ensures h == g && t == u
  {
    DecodeEncodeState(h, t);
    DecodeEncodeState(g, u);
  }

  // Packets, as a request carries them.

  function PayloadValue(p: Payload): (v: Value)
    ensures HasType(v, PayloadType())
  {
    Tuple(ByteStrings([p.sourcePort, p.destPort, p.version, p.encoding, p.value]))
  }

  function PayloadOf(v: Value): Option<Payload> {
    if !v.Tuple? then None
    else match ByteStringsOf(v.fields)
         case Some(bs) => if |bs| == 5 then Some(Payload(bs[0], bs[1], bs[2], bs[3], bs[4])) else None
         case None => None
  }

  function PayloadValues(ps: seq<Payload>): (vs: Values)
    ensures Length(vs) == |ps| && HaveTypes(vs, Repeat(PayloadType(), |ps|))
  {
    if ps == [] then Nil else Cons(PayloadValue(ps[0]), PayloadValues(ps[1..]))
  }

  lemma PayloadIsDynamic()
    ensures HeadSize(PayloadType()) == 32
  {
    assert AnyDynamic(TypeCons(BytesType, Repeat(BytesType, 4)));
  }

  function PacketValue(p: Packet): (v: Value)
    ensures HasType(v, PacketType())
  {
    PayloadIsDynamic();
    var list := Array(PayloadValues(p.payloads));
    assert HasType(list, ArrayType(PayloadType()));
    var t1 := TypeCons(ArrayType(PayloadType()), NoTypes);
    var v1 := Cons(list, Nil);
    assert HaveTypes(v1, t1);
    var v2 := Cons(Word(Uint(p.timeoutTimestamp)), v1);
    assert HaveTypes(v2, TypeCons(WordType, t1));
    var v3 := Cons(Dynamic(p.destClient), v2);
    assert HaveTypes(v3, TypeCons(BytesType, TypeCons(WordType, t1)));
    var v4 := Cons(Dynamic(p.sourceClient), v3);
    assert HaveTypes(v4, TypeCons(BytesType, TypeCons(BytesType, TypeCons(WordType, t1))));
    var v5 := Cons(Word(Uint(p.sequence)), v4);
    assert HaveTypes(v5, TypeCons(WordType, TypeCons(BytesType, TypeCons(BytesType, TypeCons(WordType, t1)))));
    Tuple(v5)
  }

  function EncodePacket(p: Packet): bytes {
    EncodeOne(PacketValue(p), PacketType())
  }

  function PayloadsOf(vs: Values): Option<seq<Payload>> {
    match vs
    case Nil => Some([])
    case Cons(v, rest) =>
      match (PayloadOf(v), PayloadsOf(rest))
      case (Some(p), Some(ps)) => Some([p] + ps)
      case _ => None
  }

  function PacketOf(v: Value): Option<Packet> {
    match v
    case Tuple(Cons(Word(s), Cons(Dynamic(source), Cons(Dynamic(dest), Cons(Word(t), Cons(Array(vs), Nil)))))) =>
      (match (U64Of(s), U64Of(t), PayloadsOf(vs))
       case (Some(sequence), Some(timeout), Some(payloads)) => Some(Packet(sequence, source, dest, timeout, payloads))
       case _ => None)
    case _ => None
  }

  function DecodePacket(data: bytes): Option<Packet> {
    match DecodeOne(data, PacketType()) case Some(v) => PacketOf(v) case None => None
  }

  lemma PayloadOfValue(p: Payload)
    ensures PayloadOf(PayloadValue(p)) == Some(p)
  {
    ByteStringsOfByteStrings([p.sourcePort, p.destPort, p.version, p.encoding, p.value]);
  }

  lemma PayloadsOfMore(v: Value, rest: Values, p: Payload, ps: seq<Payload>)
    requires PayloadOf(v) == Some(p) && PayloadsOf(rest) == Some(ps)
    ensures PayloadsOf(Cons(v, rest)) == Some([p] + ps)
  {
  }

  lemma {:induction false} PayloadsOfValues(ps: seq<Payload>)
    ensures PayloadsOf(PayloadValues(ps)) == Some(ps)
  {
    if ps != [] {
      PayloadOfValue(ps[0]);
      PayloadsOfValues(ps[1..]);
      PayloadsOfMore(PayloadValue(ps[0]), PayloadValues(ps[1..]), ps[0], ps[1..]);
      assert [ps[0]] + ps[1..] == ps;
    }
  }

  lemma DecodeEncodePacket(p: Packet)
    requires |EncodePacket(p)| < U256_SIZE
    ensures DecodePacket(EncodePacket(p)) == Some(p)
  {
    DecodeOneEncoded(PacketValue(p), PacketType());
    PayloadsOfValues(p.payloads);
    U64OfUint(p.sequence);
    U64OfUint(p.timeoutTimestamp);
  }

  // The bytes of a packet, spelled out down to its payloads.

  /** A word, two tails, a word and a tail: the offsets count from the start of the tuple. */
  function PacketLayout(sequence: word, source: bytes, dest: bytes, timeout: word, payloads: bytes): bytes {
    sequence + Uint(160) + Uint(160 + |source|) + timeout + Uint(160 + |source| + |dest|) + source + dest + payloads
  }

  lemma PacketLayoutJoins(sequence: word, source: bytes, dest: bytes, timeout: word, payloads: bytes)
    ensures Join(Part(false, sequence, Part(true, source, Part(true, dest,
              Part(false, timeout, Part(true, payloads, NoParts)))))) ==
            PacketLayout(sequence, source, dest, timeout, payloads)
  {
    var p1 := Part(true, payloads, NoParts);
    var p2 := Part(false, timeout, p1);
    var p3 := Part(true, dest, p2);
    var p4 := Part(true, source, p3);
    var a, b := 160 + |source|, 160 + |source| + |dest|;
    DynamicPart(payloads, NoParts, b);
    StaticPart(timeout, p1, b);
    DynamicPart(dest, p2, a);
    DynamicPart(source, p3, 160);
    StaticPart(sequence, p4, 160);
  }

  lemma StaticPart(b: word, rest: Parts, offset: nat)
    ensures var ps := Part(false, b, rest);
            HeadLength(ps) == 32 + HeadLength(rest) && Heads(ps, offset) == b + Heads(rest, offset)
            && Tails(ps) == Tails(rest)
  {
  }

  lemma DynamicPart(b: bytes, rest: Parts, offset: nat)
    ensures var ps := Part(true, b, rest);
            HeadLength(ps) == 32 + HeadLength(rest) && Heads(ps, offset) == Uint(offset) + Heads(rest, offset + |b|)
            && Tails(ps) == b + Tails(rest)
  {
  }

  lemma PacketFields(p: Packet)
    ensures EncodeFields(PacketValue(p).fields, PacketType().fields) ==
            Part(false, Uint(p.sequence), Part(true, Encode(Dynamic(p.sourceClient), BytesType),
              Part(true, Encode(Dynamic(p.destClient), BytesType), Part(false, Uint(p.timeoutTimestamp),
                Part(true, Encode(Array(PayloadValues(p.payloads)), ArrayType(PayloadType())), NoParts)))))
  {
    var vs, ts := PacketValue(p).fields, PacketType().fields;
    FirstField(vs, ts);
    FirstField(vs.tail, ts.tail);
    FirstField(vs.tail.tail, ts.tail.tail);
    FirstField(vs.tail.tail.tail, ts.tail.tail.tail);
    FirstField(vs.tail.tail.tail.tail, ts.tail.tail.tail.tail);
  }

  lemma EncodePacketShape(p: Packet)
    ensures EncodePacket(p) ==
            Uint(32) + PacketLayout(Uint(p.sequence), Encode(Dynamic(p.sourceClient), BytesType),
                                    Encode(Dynamic(p.destClient), BytesType), Uint(p.timeoutTimestamp),
                                    Encode(Array(PayloadValues(p.payloads)), ArrayType(PayloadType())))
  {
    PacketFields(p);
    OneDynamic(PacketValue(p), PacketType());
    PacketLayoutJoins(Uint(p.sequence), Encode(Dynamic(p.sourceClient), BytesType),
                      Encode(Dynamic(p.destClient), BytesType), Uint(p.timeoutTimestamp),
                      Encode(Array(PayloadValues(p.payloads)), ArrayType(PayloadType())));
  }
}

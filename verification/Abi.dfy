/** The contract ABI encoding (Solidity, "Formal Specification of the Encoding"). */
module Abi {
  import opened Wrappers
  import opened Bytes

  datatype Type = WordType | BytesType | TupleType(fields: TypeList) | ArrayType(element: Type)

  datatype TypeList = NoTypes | TypeCons(head: Type, tail: TypeList)

  datatype Value = Word(w: word) | Dynamic(b: bytes) | Tuple(fields: Values) | Array(elements: Values)

  datatype Values = Nil | Cons(head: Value, tail: Values)

  function Length(vs: Values): nat {
    match vs case Nil => 0 case Cons(_, rest) => 1 + Length(rest)
  }

  function Depth(t: Type): nat {
    match t
    case WordType | BytesType => 0
    case TupleType(ts) => 1 + DepthOfAll(ts)
    case ArrayType(e) => 1 + Depth(e)
  }

  function DepthOfAll(ts: TypeList): nat {
    match ts
    case NoTypes => 0
    case TypeCons(t, rest) => if Depth(t) < DepthOfAll(rest) then DepthOfAll(rest) else Depth(t)
  }

  function Repeat(t: Type, n: nat): (ts: TypeList)
    ensures DepthOfAll(ts) <= Depth(t)
  {
    if n == 0 then NoTypes else TypeCons(t, Repeat(t, n - 1))
  }

  function TypeCount(ts: TypeList): nat {
    match ts case NoTypes => 0 case TypeCons(_, rest) => 1 + TypeCount(rest)
  }

  /** Solidity has no empty struct, so an array's elements take up room. */
  ghost predicate HasType(v: Value, t: Type) {
    match v
    case Word(_) => t == WordType
    case Dynamic(_) => t == BytesType
    case Tuple(vs) => t.TupleType? && HaveTypes(vs, t.fields)
    case Array(vs) => t.ArrayType? && HeadSize(t.element) > 0 && HaveTypes(vs, Repeat(t.element, Length(vs)))
  }

  ghost predicate HaveTypes(vs: Values, ts: TypeList) {
    match vs
    case Nil => ts == NoTypes
    case Cons(v, rest) => ts.TypeCons? && HasType(v, ts.head) && HaveTypes(rest, ts.tail)
  }

  // Static and dynamic types, and the size of their heads.

  predicate IsDynamic(t: Type) {
    match t
    case WordType => false
    case BytesType | ArrayType(_) => true
    case TupleType(ts) => AnyDynamic(ts)
  }

  predicate AnyDynamic(ts: TypeList) {
    match ts case NoTypes => false case TypeCons(t, rest) => IsDynamic(t) || AnyDynamic(rest)
  }

  function HeadSize(t: Type): nat {
    match t
    case TupleType(ts) => if AnyDynamic(ts) then 32 else HeadSizes(ts)
    case WordType | BytesType | ArrayType(_) => 32
  }

  function HeadSizes(ts: TypeList): nat {
    match ts case NoTypes => 0 case TypeCons(t, rest) => HeadSize(t) + HeadSizes(rest)
  }

  // Encoding.

  function Uint(n: nat): word {
    BigEndian(n, 32)
  }

  function Padding(n: nat): (b: bytes)
    ensures (n + |b|) % 32 == 0 && |b| < 32
  {
    seq((32 - n % 32) % 32, _ => 0)
  }

  /** The encodings of a tuple's fields, in order. */
  datatype Parts = NoParts | Part(dynamic: bool, b: bytes, rest: Parts)

  function Encode(v: Value, t: Type): bytes
    requires HasType(v, t)
    decreases v
  {
    match v
    case Word(w) => w
    case Dynamic(b) => Uint(|b|) + b + Padding(|b|)
    case Tuple(vs) => Join(EncodeFields(vs, t.fields))
    case Array(vs) => Uint(Length(vs)) + Join(EncodeFields(vs, Repeat(t.element, Length(vs))))
  }

  function EncodeFields(vs: Values, ts: TypeList): Parts
    requires HaveTypes(vs, ts)
    decreases vs
  {
    match vs
    case Nil => NoParts
    case Cons(v, rest) => Part(IsDynamic(ts.head), Encode(v, ts.head), EncodeFields(rest, ts.tail))
  }

  /** All heads, then all tails. */
  function Join(ps: Parts): bytes {
    Heads(ps, HeadLength(ps)) + Tails(ps)
  }

  function HeadLength(ps: Parts): nat {
    match ps case NoParts => 0 case Part(dynamic, b, rest) => (if dynamic then 32 else |b|) + HeadLength(rest)
  }

  /** Static values in place, and for a dynamic one the offset of its tail. */
  function Heads(ps: Parts, offset: nat): (r: bytes)
    ensures |r| == HeadLength(ps)
  {
    match ps
    case NoParts => []
    case Part(dynamic, b, rest) => if dynamic then Uint(offset) + Heads(rest, offset + |b|) else b + Heads(rest, offset)
  }

  function Tails(ps: Parts): bytes {
    match ps case NoParts => [] case Part(dynamic, b, rest) => if dynamic then b + Tails(rest) else Tails(rest)
  }

  // Decoding.

  function ReadUint(data: bytes, at: nat): Option<nat> {
    if at + 32 <= |data| then Some(FromBigEndian(data[at..at + 32])) else None
  }

  /** The value of type `t` whose encoding starts at `at`. */
  function DecodeAt(data: bytes, at: nat, t: Type): Option<Value>
    decreases Depth(t), 0, 0
  {
    match t
    case WordType => if at + 32 <= |data| then Some(Word(data[at..at + 32])) else None
    case BytesType =>
      (match ReadUint(data, at)
       case None => None
       case Some(n) => if at + 32 + n <= |data| then Some(Dynamic(data[at + 32..at + 32 + n])) else None)
    case TupleType(ts) =>
      (match DecodeFields(data, at, at, ts) case None => None case Some(vs) => Some(Tuple(vs)))
    case ArrayType(e) =>
      (match ReadUint(data, at)
       case None => None
       case Some(n) =>
         if at + 32 + n * HeadSize(e) > |data| then None
         else match DecodeFields(data, at + 32, at + 32, Repeat(e, n))
              case None => None
              case Some(vs) => Some(Array(vs)))
  }

  /** The fields whose heads start at `at`; offsets count from `base`. */
  function DecodeFields(data: bytes, base: nat, at: nat, ts: TypeList): Option<Values>
    decreases DepthOfAll(ts), 1, TypeCount(ts)
  {
    match ts
    case NoTypes => Some(Nil)
    case TypeCons(t, rest) =>
      var v := if !IsDynamic(t) then DecodeAt(data, at, t)
               else match ReadUint(data, at) case None => None case Some(offset) => DecodeAt(data, base + offset, t);
      match v
      case None => None
      case Some(v) =>
        match DecodeFields(data, base, at + HeadSize(t), rest)
        case None => None
        case Some(vs) => Some(Cons(v, vs))
  }

  // Decoding inverts encoding.

  /** `data` holds `part` at `at`. */
  predicate HoldsAt(data: bytes, at: nat, part: bytes) {
    at + |part| <= |data| && data[at..at + |part|] == part
  }

  lemma HoldsAtSplit(data: bytes, at: nat, a: bytes, b: bytes)
    requires HoldsAt(data, at, a + b)
    ensures HoldsAt(data, at, a) && HoldsAt(data, at + |a|, b)
  {
    var whole := data[at..at + |a + b|];
    assert whole[..|a|] == a && whole[|a|..] == b;
    assert data[at..at + |a|] == whole[..|a|];
    assert data[at + |a|..at + |a| + |b|] == whole[|a|..];
  }

  lemma ReadUintHolds(data: bytes, at: nat, n: nat)
    requires HoldsAt(data, at, Uint(n)) && n < U256_SIZE
    ensures ReadUint(data, at) == Some(n)
  {
    Pow256Of32();
    BigEndianRoundTrip(n, 32);
  }

  lemma {:induction false} StaticSize(v: Value, t: Type)
    requires HasType(v, t) && !IsDynamic(t)
    ensures |Encode(v, t)| == HeadSize(t)
    decreases v
  {
    if v.Tuple? {
      HeadLengthOfFields(v.fields, t.fields);
      StaticHasNoTails(v.fields, t.fields);
    }
  }

  lemma {:induction false} HeadLengthOfFields(vs: Values, ts: TypeList)
    requires HaveTypes(vs, ts)
    ensures HeadLength(EncodeFields(vs, ts)) == HeadSizes(ts)
    decreases vs
  {
    if vs.Cons? {
      if !IsDynamic(ts.head) {
        StaticSize(vs.head, ts.head);
      }
      HeadLengthOfFields(vs.tail, ts.tail);
    }
  }

  lemma {:induction false} StaticHasNoTails(vs: Values, ts: TypeList)
    requires HaveTypes(vs, ts) && !AnyDynamic(ts)
    ensures Tails(EncodeFields(vs, ts)) == []
  {
    if vs.Cons? {
      StaticHasNoTails(vs.tail, ts.tail);
    }
  }

  lemma {:induction false} RepeatedHeadSizes(t: Type, n: nat)
    ensures HeadSizes(Repeat(t, n)) == n * HeadSize(t)
  {
    if n > 0 {
      RepeatedHeadSizes(t, n - 1);
      OneMore(n, HeadSize(t));
      assert HeadSizes(Repeat(t, n)) == HeadSize(t) + HeadSizes(Repeat(t, n - 1));
    }
  }

  lemma OneMore(n: nat, k: nat)
    requires n > 0
    ensures n * k == k + (n - 1) * k
  {
  }

  /** A value that fits a 256-bit length is read back from wherever it was written. */
  lemma {:induction false} DecodeEncoded(data: bytes, at: nat, v: Value, t: Type)
    requires HasType(v, t) && HoldsAt(data, at, Encode(v, t)) && |Encode(v, t)| < U256_SIZE
    ensures DecodeAt(data, at, t) == Some(v)
    decreases v, 1
  {
    match v
    case Word(w) =>
    case Dynamic(b) =>
      HoldsAtSplit(data, at, Uint(|b|) + b, Padding(|b|));
      HoldsAtSplit(data, at, Uint(|b|), b);
      ReadUintHolds(data, at, |b|);
    case Tuple(vs) => DecodeJoined(data, at, vs, t.fields);
    case Array(vs) => DecodeArray(data, at, vs, t);
  }

  lemma {:induction false} DecodeArray(data: bytes, at: nat, vs: Values, t: Type)
    requires HasType(Array(vs), t) && HoldsAt(data, at, Encode(Array(vs), t))
    requires |Encode(Array(vs), t)| < U256_SIZE
    ensures DecodeAt(data, at, t) == Some(Array(vs))
    decreases Array(vs), 0
  {
    var n := Length(vs);
    var ts := Repeat(t.element, n);
    var joined := Join(EncodeFields(vs, ts));
    HoldsAtSplit(data, at, Uint(n), joined);
    HeadLengthOfFields(vs, ts);
    RepeatedHeadSizes(t.element, n);
    AtLeastOnce(n, HeadSize(t.element));
    ReadUintHolds(data, at, n);
    DecodeJoined(data, at + 32, vs, ts);
  }

  lemma {:induction false} DecodeJoined(data: bytes, at: nat, vs: Values, ts: TypeList)
    requires HaveTypes(vs, ts)
    requires HoldsAt(data, at, Join(EncodeFields(vs, ts))) && |Join(EncodeFields(vs, ts))| < U256_SIZE
    ensures DecodeFields(data, at, at, ts) == Some(vs)
    decreases vs, 2
  {
    var ps := EncodeFields(vs, ts);
    HoldsAtSplit(data, at, Heads(ps, HeadLength(ps)), Tails(ps));
    DecodeEncodedFields(data, at, at, at + HeadLength(ps), vs, ts);
  }

  lemma AtLeastOnce(n: nat, k: nat)
    requires k > 0
    ensures n <= n * k
  {
  }

  /** The remaining heads stand at `at` and the remaining tails at `tailAt`, with offsets counted from `base`. */
  predicate FieldsAt(data: bytes, base: nat, at: nat, tailAt: nat, ps: Parts) {
    && base <= tailAt
    && HoldsAt(data, at, Heads(ps, tailAt - base)) && HoldsAt(data, tailAt, Tails(ps))
    && HeadLength(ps) < U256_SIZE && tailAt - base + |Tails(ps)| < U256_SIZE
  }

  lemma SplitDynamic(data: bytes, base: nat, at: nat, tailAt: nat, b: bytes, rest: Parts)
    requires FieldsAt(data, base, at, tailAt, Part(true, b, rest))
    ensures ReadUint(data, at) == Some(tailAt - base) && HoldsAt(data, tailAt, b) && |b| < U256_SIZE
    ensures FieldsAt(data, base, at + 32, tailAt + |b|, rest)
  {
    var offset := tailAt - base;
    HoldsAtSplit(data, at, Uint(offset), Heads(rest, offset + |b|));
    HoldsAtSplit(data, tailAt, b, Tails(rest));
    ReadUintHolds(data, at, offset);
  }

  lemma SplitStatic(data: bytes, base: nat, at: nat, tailAt: nat, b: bytes, rest: Parts)
    requires FieldsAt(data, base, at, tailAt, Part(false, b, rest))
    ensures HoldsAt(data, at, b) && |b| < U256_SIZE
    ensures FieldsAt(data, base, at + |b|, tailAt, rest)
  {
    HoldsAtSplit(data, at, b, Heads(rest, tailAt - base));
  }

  lemma DecodeDynamicField(data: bytes, base: nat, at: nat, offset: nat, v: Value, vs: Values, ts: TypeList)
    requires ts.TypeCons? && IsDynamic(ts.head)
    requires ReadUint(data, at) == Some(offset) && DecodeAt(data, base + offset, ts.head) == Some(v)
    requires DecodeFields(data, base, at + 32, ts.tail) == Some(vs)
    ensures DecodeFields(data, base, at, ts) == Some(Cons(v, vs))
  {
  }

  lemma DecodeStaticField(data: bytes, base: nat, at: nat, v: Value, vs: Values, ts: TypeList)
    requires ts.TypeCons? && !IsDynamic(ts.head) && DecodeAt(data, at, ts.head) == Some(v)
    requires DecodeFields(data, base, at + HeadSize(ts.head), ts.tail) == Some(vs)
    ensures DecodeFields(data, base, at, ts) == Some(Cons(v, vs))
  {
  }

  lemma {:induction false} DecodeEncodedFields(data: bytes, base: nat, at: nat, tailAt: nat, vs: Values, ts: TypeList)
    requires HaveTypes(vs, ts) && FieldsAt(data, base, at, tailAt, EncodeFields(vs, ts))
    ensures DecodeFields(data, base, at, ts) == Some(vs)
    decreases vs, 1
  {
    if vs.Cons? {
      if IsDynamic(ts.head) {
        DecodeFromDynamic(data, base, at, tailAt, vs, ts);
      } else {
        DecodeFromStatic(data, base, at, tailAt, vs, ts);
      }
    }
  }

  lemma FieldsInOrder(vs: Values, ts: TypeList)
    requires vs.Cons? && HaveTypes(vs, ts)
    ensures EncodeFields(vs, ts) == Part(IsDynamic(ts.head), Encode(vs.head, ts.head), EncodeFields(vs.tail, ts.tail))
  {
  }

  lemma {:induction false} DecodeFromDynamic(data: bytes, base: nat, at: nat, tailAt: nat, vs: Values, ts: TypeList)
    requires vs.Cons? && HaveTypes(vs, ts) && IsDynamic(ts.head)
    requires FieldsAt(data, base, at, tailAt, EncodeFields(vs, ts))
    ensures DecodeFields(data, base, at, ts) == Some(vs)
    decreases vs, 0
  {
    FieldsInOrder(vs, ts);
    var t, b, rest := ts.head, Encode(vs.head, ts.head), EncodeFields(vs.tail, ts.tail);
    SplitDynamic(data, base, at, tailAt, b, rest);
    assert DecodeAt(data, tailAt, t) == Some(vs.head) by {
      DecodeEncoded(data, tailAt, vs.head, t);
    }
    assert DecodeFields(data, base, at + 32, ts.tail) == Some(vs.tail) by {
      DecodeEncodedFields(data, base, at + 32, tailAt + |b|, vs.tail, ts.tail);
    }
    DecodeDynamicField(data, base, at, tailAt - base, vs.head, vs.tail, ts);
  }

  lemma {:induction false} DecodeFromStatic(data: bytes, base: nat, at: nat, tailAt: nat, vs: Values, ts: TypeList)
    requires vs.Cons? && HaveTypes(vs, ts) && !IsDynamic(ts.head)
    requires FieldsAt(data, base, at, tailAt, EncodeFields(vs, ts))
    ensures DecodeFields(data, base, at, ts) == Some(vs)
    decreases vs, 0
  {
    FieldsInOrder(vs, ts);
    var t := ts.head;
    SplitStatic(data, base, at, tailAt, Encode(vs.head, t), EncodeFields(vs.tail, ts.tail));
    StaticSize(vs.head, t);
    assert DecodeAt(data, at, t) == Some(vs.head) by {
      DecodeEncoded(data, at, vs.head, t);
    }
    assert DecodeFields(data, base, at + HeadSize(t), ts.tail) == Some(vs.tail) by {
      DecodeEncodedFields(data, base, at + HeadSize(t), tailAt, vs.tail, ts.tail);
    }
    DecodeStaticField(data, base, at, vs.head, vs.tail, ts);
  }

  // The layout of encodings.

  predicate Whole(n: nat) { n % 32 == 0 }

  lemma WholeSum(a: nat, b: nat)
    requires Whole(a) && Whole(b)
    ensures Whole(a + b)
  {
  }

  predicate Aligned(ps: Parts) {
    match ps case NoParts => true case Part(_, b, rest) => Whole(|b|) && Aligned(rest)
  }

  lemma {:induction false} PartsWhole(ps: Parts)
    requires Aligned(ps)
    ensures Whole(HeadLength(ps)) && Whole(|Tails(ps)|)
  {
    match ps
    case NoParts =>
    case Part(dynamic, b, rest) =>
      PartsWhole(rest);
      WholeSum(if dynamic then 32 else |b|, HeadLength(rest));
      WholeSum(|b|, |Tails(rest)|);
  }

  lemma JoinWhole(ps: Parts)
    requires Aligned(ps)
    ensures Whole(|Join(ps)|)
  {
    PartsWhole(ps);
    WholeSum(HeadLength(ps), |Tails(ps)|);
  }

  /** Every encoding is a number of whole words. */
  lemma {:induction false} EncodingAligned(v: Value, t: Type)
    requires HasType(v, t)
    ensures Whole(|Encode(v, t)|)
    decreases v
  {
    match v
    case Word(_) =>
    case Dynamic(b) => WholeSum(32, |b| + |Padding(|b|)|);
    case Tuple(vs) =>
      FieldsAligned(vs, t.fields);
      JoinWhole(EncodeFields(vs, t.fields));
    case Array(vs) =>
      var ts := Repeat(t.element, Length(vs));
      FieldsAligned(vs, ts);
      JoinWhole(EncodeFields(vs, ts));
      ArrayWhole(vs, t);
  }

  lemma ArrayWhole(vs: Values, t: Type)
    requires HasType(Array(vs), t) && Whole(|Join(EncodeFields(vs, Repeat(t.element, Length(vs))))|)
    ensures Whole(|Encode(Array(vs), t)|)
  {
    WholeSum(32, |Join(EncodeFields(vs, Repeat(t.element, Length(vs))))|);
  }

  lemma {:induction false} FieldsAligned(vs: Values, ts: TypeList)
    requires HaveTypes(vs, ts)
    ensures Aligned(EncodeFields(vs, ts))
    decreases vs
  {
    if vs.Cons? {
      EncodingAligned(vs.head, ts.head);
      FieldsAligned(vs.tail, ts.tail);
      FirstField(vs, ts);
    }
  }

  lemma FirstField(vs: Values, ts: TypeList)
    requires HaveTypes(vs, ts) && vs.Cons?
    ensures EncodeFields(vs, ts) ==
            Part(IsDynamic(ts.head), Encode(vs.head, ts.head), EncodeFields(vs.tail, ts.tail))
  {
  }

  /** A byte string is its length, its bytes and zeroes up to a whole word. */
  lemma BytesShape(b: bytes)
    ensures var e := Encode(Dynamic(b), BytesType);
            && e[..32] == BigEndian(|b|, 32) && e[32..32 + |b|] == b
            && Whole(|e|) && |e| < 64 + |b|
            && forall i :: 32 + |b| <= i < |e| ==> e[i] == 0
  {
    EncodingAligned(Dynamic(b), BytesType);
    PaddedShape(Uint(|b|), b, Padding(|b|));
  }

  lemma PaddedShape(size: word, b: bytes, zeroes: bytes)
    requires forall i :: 0 <= i < |zeroes| ==> zeroes[i] == 0
    ensures var e := size + b + zeroes;
            && |e| == 32 + |b| + |zeroes| && e[..32] == size && e[32..32 + |b|] == b
            && forall i :: 32 + |b| <= i < |e| ==> e[i] == 0
  {
  }
}

/** The packets of a request, each ABI-encoded on its own. */
module PacketLists {
  import opened Wrappers
  import opened Bytes
  import opened Types
  import opened Encodings

  /** All decoded, or an error if one does not decode. */
  function DecodeEach(decode: bytes -> Option<Packet>, encoded: seq<bytes>): Result<seq<Packet>, AttestorError> {
    if encoded == [] then Ok([])
    else
      var n := |encoded| - 1;
      match DecodeEach(decode, encoded[..n])
      case Err(e) => Err(e)
      case Ok(ps) => match decode(encoded[n]) case None => Err(AbiError) case Some(p) => Ok(ps + [p])
  }

  ghost predicate AllDecode(decode: bytes -> Option<Packet>, encoded: seq<bytes>, ps: seq<Packet>) {
    |ps| == |encoded| && forall i :: 0 <= i < |encoded| ==> decode(encoded[i]) == Some(ps[i])
  }

  lemma {:induction false} DecodeEachExact(decode: bytes -> Option<Packet>, encoded: seq<bytes>)
    ensures match DecodeEach(decode, encoded)
            case Ok(ps) => AllDecode(decode, encoded, ps)
            case Err(e) => e == AbiError && exists b :: b in encoded && decode(b) == None
  {
    if encoded != [] {
      var n := |encoded| - 1;
      DecodeEachExact(decode, encoded[..n]);
      if DecodeEach(decode, encoded[..n]).Ok? {
        var ps := DecodeEach(decode, encoded[..n]).value;
        assert forall i :: 0 <= i < n ==> decode(encoded[..n][i]) == Some(ps[i]);
        assert encoded[n] in encoded;
      }
    }
  }

  lemma {:induction false} AllDecodeUnique(decode: bytes -> Option<Packet>, encoded: seq<bytes>, ps: seq<Packet>)
    requires AllDecode(decode, encoded, ps)
    ensures DecodeEach(decode, encoded) == Ok(ps)
  {
    DecodeEachExact(decode, encoded);
    if DecodeEach(decode, encoded).Ok? {
      var qs := DecodeEach(decode, encoded).value;
      assert forall i :: 0 <= i < |ps| ==> decode(encoded[i]) == Some(qs[i]);
      assert qs == ps;
    }
  }

  /** `Packets::try_from_abi_encoded`. */
  function DecodeAll(encoded: seq<bytes>): Result<seq<Packet>, AttestorError> {
    DecodeEach(DecodePacket, encoded)
  }

  lemma DecodeAllExact(encoded: seq<bytes>)
    ensures match DecodeAll(encoded)
            case Ok(ps) => AllDecode(DecodePacket, encoded, ps)
            case Err(e) => e == AbiError && exists b :: b in encoded && DecodePacket(b) == None
  {
    DecodeEachExact(DecodePacket, encoded);
  }

  function EncodeEach(ps: seq<Packet>): seq<bytes> {
    seq(|ps|, i requires 0 <= i < |ps| => EncodePacket(ps[i]))
  }

  /** A request's packets arrive as they were encoded, in order. */
  lemma DecodeAllEncoded(ps: seq<Packet>)
    requires forall p :: p in ps ==> |EncodePacket(p)| < U256_SIZE
    ensures DecodeAll(EncodeEach(ps)) == Ok(ps)
  {
    forall i | 0 <= i < |ps| ensures DecodePacket(EncodeEach(ps)[i]) == Some(ps[i]) {
      DecodeEncodePacket(ps[i]);
    }
    AllDecodeUnique(DecodePacket, EncodeEach(ps), ps);
  }
}

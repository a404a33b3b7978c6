/**
 The tagged address codec of `addrbytes.py`. The classifiers and base58 come from
 elsewhere and are arbitrary here; the encoder checks the trip back before it
 commits to a structured tag, so the round trip holds whatever they do.
 */
module AddrBytes {
  import opened Wrappers
  import opened ByteStrings
  import opened Hex
  import opened Transactions

  const TAG_HEX: Byte := 0x00
  const TAG_ECDSA: Byte := 0x01
  const TAG_MULTISIG: Byte := 0x04
  const TAG_VERBATIM: Byte := 0xFF

  type FamilyTag = t: Byte | TAG_ECDSA <= t <= TAG_MULTISIG witness TAG_ECDSA

  /** The address pattern tests and the base58 library. */
  datatype Codec = Codec(
    looksHex: Bytes -> bool,
    family: Bytes -> Option<FamilyTag>,
    b58decode: Bytes -> Option<Bytes>,
    b58encode: Bytes -> Bytes)

  function Verbatim(s: Address): Bytes {
    [TAG_VERBATIM, |s|] + s
  }

  /** `pack_addr` */
  function Pack(codec: Codec, s: Address): Bytes {
    if codec.looksHex(s) then
      var raw := FromHex(s);
      if raw.Some? && ToHex(raw.value) == s then [TAG_HEX] + raw.value else Verbatim(s)
    else
      var tag := codec.family(s);
      if tag.None? then Verbatim(s) else
        var body := codec.b58decode(s);
        if body.Some? && codec.b58encode(body.value) == s then [tag.value as Byte] + body.value else Verbatim(s)
  }

  /** `unpack_addr`; None where it raises. */
  function Unpack(codec: Codec, value: Bytes): Option<Bytes> {
    if value == [] then None else
      var tag, body := value[0], value[1..];
      if tag == TAG_HEX then Some(ToHex(body))
      else if TAG_ECDSA <= tag <= TAG_MULTISIG then Some(codec.b58encode(body))
      else if tag == TAG_VERBATIM then
        if body == [] || body[0] > |body| - 1 then None else Some(body[1..1 + body[0]])
      else None
  }

  /** Every stored address decodes to itself, for any pattern tests and any base58. */
  lemma {:induction false} PackRoundTrip(codec: Codec, s: Address)
    ensures Unpack(codec, Pack(codec, s)) == Some(s)
  {
    var v := Pack(codec, s);
    if v == Verbatim(s) {
      assert v[1..] == [|s|] + s;
      assert v[1..][1..1 + |s|] == s;
    } else if v[0] == TAG_HEX {
      assert v[1..] == FromHex(s).value;
    } else {
      assert v[1..] == codec.b58decode(s).value;
    }
  }
}

/** Hexadecimal text as `bytes.fromhex` and `bytes.hex` treat it. */
module Hex {
  import opened Wrappers
  import opened ByteStrings

  function DigitOf(v: nat): (c: Byte)
    requires v < 16
  {
    if v < 10 then 48 + v else 87 + v
  }

  function ValueOf(c: Byte): (v: Option<nat>)
    ensures v.Some? ==> v.value < 16
  {
    if 48 <= c <= 57 then Some(c - 48)
    else if 97 <= c <= 102 then Some(c - 87)
    else if 65 <= c <= 70 then Some(c - 55)
    else None
  }

  function FromHex(s: Bytes): Option<Bytes> {
    if s == [] then Some([])
    else if |s| == 1 then None
    else
      var hi :- ValueOf(s[0]);
      var lo :- ValueOf(s[1]);
      var rest :- FromHex(s[2..]);
      Some([16 * hi + lo] + rest)
  }

  function ToHex(b: Bytes): (s: Bytes)
    ensures |s| == 2 * |b|
  {
    if b == [] then [] else [DigitOf(b[0] / 16), DigitOf(b[0] % 16)] + ToHex(b[1..])
  }

  predicate LowerDigit(c: Byte) {
    48 <= c <= 57 || 97 <= c <= 102
  }

  predicate LowerHex(s: Bytes) {
    forall c :: c in s ==> LowerDigit(c)
  }

  /** The digits: 0 to 9, then a to f in either case. */
  lemma {:induction false} DigitValues(c: Byte, v: nat)
    ensures ValueOf(c) == Some(v) <==>
      || (v <= 9 && c == 48 + v) || (10 <= v <= 15 && (c == 97 + v - 10 || c == 65 + v - 10))
  {
  }

  lemma {:induction false} DigitRoundTrip(c: Byte)
    requires LowerDigit(c)
    ensures ValueOf(c).Some? && DigitOf(ValueOf(c).value) == c
  {
  }

  lemma {:induction false} ToHexPair(hi: nat, lo: nat, rest: Bytes)
    requires hi < 16 && lo < 16
    ensures ToHex([16 * hi + lo] + rest) == [DigitOf(hi), DigitOf(lo)] + ToHex(rest)
  {
    assert ([16 * hi + lo] + rest)[1..] == rest;
  }

  lemma {:induction false} FromHexPair(c: Byte, d: Byte, rest: Bytes)
    requires ValueOf(c).Some? && ValueOf(d).Some? && FromHex(rest).Some?
    ensures FromHex([c, d] + rest) == Some([16 * ValueOf(c).value + ValueOf(d).value] + FromHex(rest).value)
  {
    assert ([c, d] + rest)[2..] == rest;
  }

  lemma {:induction false} NoDigits()
    ensures FromHex([]) == Some([]) && ToHex([]) == []
  {
  }

  /** Lower-case hex of even length survives the trip through raw bytes. */
  lemma {:induction false} LowerHexRoundTrip(s: Bytes)
    requires LowerHex(s) && |s| % 2 == 0
    ensures FromHex(s).Some? && ToHex(FromHex(s).value) == s
    ensures |FromHex(s).value| == |s| / 2
  {
    hide FromHex, ToHex, ValueOf, DigitOf, LowerDigit;
    if s == [] {
      NoDigits();
    } else {
      var c, d, rest := s[0], s[1], s[2..];
      assert s == [c, d] + rest;
      LowerHexRoundTrip(rest);
      DigitRoundTrip(c);
      DigitRoundTrip(d);
      FromHexPair(c, d, rest);
      ToHexPair(ValueOf(c).value, ValueOf(d).value, FromHex(rest).value);
    }
  }
}

/** One wire transaction: the eight fields of `TX_FIELDS`, amounts in atomic units. */
module Transactions {
  import opened ByteStrings

  /** A stored address key holds at most 255 bytes; canonical addresses hold at most 56 characters. */
  type Address = a: Bytes | |a| <= 255

  datatype Tx = Tx(
    timestamp: int, address: Address, recipient: Address, amount: int,
    signature: Bytes, pubkey: Bytes, operation: Bytes, openfield: Bytes)
}

/** The post-fork binary pre-images of `bismuth_serialize.py`. */
module Serialize {
  import opened Wrappers
  import opened ByteStrings
  import opened Hex
  import opened Transactions

  const MAGIC: Byte := 0xB2
  const VERSION: Byte := 0x02

  /** Does `n.to_bytes(w, "little")` succeed? */
  predicate Fits(n: int, w: nat) {
    0 <= n < Pow256(w)
  }

  /** `_v2_lp` */
  function Prefixed(b: Bytes, w: nat): Bytes
    requires Fits(|b|, w)
  {
    LittleEndian(|b|, w) + b
  }

  /** `_v2_opof`: a flag byte, then only the non-empty fields. */
  function FreeFields(operation: Bytes, openfield: Bytes): Bytes
    requires Fits(|operation|, 4) && Fits(|openfield|, 4)
  {
    [(if operation != [] then 1 else 0) + (if openfield != [] then 2 else 0)]
    + (Optional(operation) + Optional(openfield))
  }

  function Optional(field: Bytes): Bytes
    requires Fits(|field|, 4)
  {
    if field != [] then Prefixed(field, 4) else []
  }

  /** The six signed fields; the two free ones may be absent. */
  datatype Content = Content(
    timestamp: int, amount: int, address: Bytes, recipient: Bytes,
    operation: Option<Bytes>, openfield: Option<Bytes>)

  function Present(field: Option<Bytes>): Bytes {
    if field.Some? then field.value else []
  }

  predicate Encodable(c: Content) {
    && Fits(c.timestamp, 8) && Fits(c.amount, 8)
    && Fits(|c.address|, 1) && Fits(|c.recipient|, 1)
    && Fits(|Present(c.operation)|, 4) && Fits(|Present(c.openfield)|, 4)
  }

  /** `signature_buffer_v2`; None where a field overflows its width. */
  function SignatureBuffer(c: Content): (r: Option<Bytes>)
    ensures r.Some? <==> Encodable(c)
  {
    if !Encodable(c) then None else
      Some([MAGIC, VERSION] + (LittleEndian(c.timestamp, 8) + (LittleEndian(c.amount, 8)
           + (Prefixed(c.address, 1) + (Prefixed(c.recipient, 1)
           + FreeFields(Present(c.operation), Present(c.openfield)))))))
  }

  lemma {:induction false} PrefixedCancel(a: Bytes, x: Bytes, b: Bytes, y: Bytes, w: nat)
    requires Fits(|a|, w) && Fits(|b|, w)
    requires Prefixed(a, w) + x == Prefixed(b, w) + y
    ensures a == b && x == y
  {
    var p, q := LittleEndian(|a|, w), LittleEndian(|b|, w);
    assert p + (a + x) == Prefixed(a, w) + x == q + (b + y);
    SplitEqual(p, a + x, q, b + y);
    LittleEndianInjective(|a|, |b|, w);
    SplitEqual(a, x, b, y);
  }

  lemma {:induction false} FixedCancel(m: nat, x: Bytes, n: nat, y: Bytes, w: nat)
    requires Fits(m, w) && Fits(n, w)
    requires LittleEndian(m, w) + x == LittleEndian(n, w) + y
    ensures m == n && x == y
  {
    SplitEqual(LittleEndian(m, w), x, LittleEndian(n, w), y);
    LittleEndianInjective(m, n, w);
  }

  lemma {:induction false} OptionalCancel(a: Bytes, x: Bytes, b: Bytes, y: Bytes)
    requires Fits(|a|, 4) && Fits(|b|, 4)
    requires (a == [] <==> b == []) && Optional(a) + x == Optional(b) + y
    ensures a == b && x == y
  {
    if a != [] {
      PrefixedCancel(a, x, b, y, 4);
    } else {
      assert [] + x == x && [] + y == y;
    }
  }

  /** The flag byte says which fields follow, so the free fields can be read off the front. */
  lemma {:induction false} FreeFieldsCancel(op: Bytes, of: Bytes, x: Bytes, op': Bytes, of': Bytes, y: Bytes)
    requires Fits(|op|, 4) && Fits(|of|, 4) && Fits(|op'|, 4) && Fits(|of'|, 4)
    requires FreeFields(op, of) + x == FreeFields(op', of') + y
    ensures op == op' && of == of' && x == y
  {
    var flag: Bytes := [(if op != [] then 1 else 0) + (if of != [] then 2 else 0)];
    var flag': Bytes := [(if op' != [] then 1 else 0) + (if of' != [] then 2 else 0)];
    Assoc(flag, Optional(op) + Optional(of), x);
    Assoc(flag', Optional(op') + Optional(of'), y);
    Assoc(Optional(op), Optional(of), x);
    Assoc(Optional(op'), Optional(of'), y);
    SplitEqual(flag, Optional(op) + (Optional(of) + x), flag', Optional(op') + (Optional(of') + y));
    assert flag[0] == flag'[0];
    OptionalCancel(op, Optional(of) + x, op', Optional(of') + y);
    OptionalCancel(of, x, of', y);
  }

  /** Equal signing pre-images come from equal fields; only absent and empty are identified. */
  lemma {:induction false} SignatureBufferInjective(c: Content, d: Content)
    requires Encodable(c) && SignatureBuffer(c) == SignatureBuffer(d)
    ensures c.timestamp == d.timestamp && c.amount == d.amount
    ensures c.address == d.address && c.recipient == d.recipient
    ensures Present(c.operation) == Present(d.operation) && Present(c.openfield) == Present(d.openfield)
  {
    var f, g := FreeFields(Present(c.operation), Present(c.openfield)),
      FreeFields(Present(d.operation), Present(d.openfield));
    var r1, r2 := Prefixed(c.recipient, 1) + f, Prefixed(d.recipient, 1) + g;
    var a1, a2 := Prefixed(c.address, 1) + r1, Prefixed(d.address, 1) + r2;
    var m1, m2 := LittleEndian(c.amount, 8) + a1, LittleEndian(d.amount, 8) + a2;
    SplitEqual([MAGIC, VERSION], LittleEndian(c.timestamp, 8) + m1, [MAGIC, VERSION],
               LittleEndian(d.timestamp, 8) + m2);
    FixedCancel(c.timestamp, m1, d.timestamp, m2, 8);
    FixedCancel(c.amount, a1, d.amount, a2, 8);
    PrefixedCancel(c.address, r1, d.address, r2, 1);
    PrefixedCancel(c.recipient, f, d.recipient, g, 1);
    assert f + [] == g + [];
    FreeFieldsCancel(Present(c.operation), Present(c.openfield), [], Present(d.operation), Present(d.openfield), []);
  }

  // ------------------------------------------------------------------ block pre-image

  /** Width of the signature and public-key length prefixes; the coinbase slots are one byte wide. */
  function SlotWidth(isCoinbase: bool): nat {
    if isCoinbase then 1 else 2
  }

  predicate TxEncodable(tx: Tx, isCoinbase: bool) {
    var w := SlotWidth(isCoinbase);
    && Fits(tx.timestamp, 8) && Fits(tx.amount, 8)
    && Fits(|tx.address|, 1) && Fits(|tx.recipient|, 1)
    && Fits(|tx.signature|, w) && Fits(|tx.pubkey|, w)
    && Fits(|tx.operation|, 4) && Fits(|tx.openfield|, 4)
  }

  /** `_v2_tx_bytes` */
  function TxBytes(tx: Tx, isCoinbase: bool): Bytes
    requires TxEncodable(tx, isCoinbase)
  {
    var w := SlotWidth(isCoinbase);
    LittleEndian(tx.timestamp, 8) + (LittleEndian(tx.amount, 8)
    + (Prefixed(tx.address, 1) + (Prefixed(tx.recipient, 1)
    + (Prefixed(tx.signature, w) + (Prefixed(tx.pubkey, w)
    + FreeFields(tx.operation, tx.openfield))))))
  }

  predicate ListEncodable(txs: seq<Tx>) {
    forall i :: 0 <= i < |txs| ==> TxEncodable(txs[i], i == |txs| - 1)
  }

  /** The transactions one after another; the last one of the list is the coinbase. */
  function ListBytes(txs: seq<Tx>): Bytes
    requires ListEncodable(txs)
  {
    if txs == [] then [] else
      ListEncodableTail(txs, 1);
      TxBytes(txs[0], |txs| == 1) + ListBytes(txs[1..])
  }

  /** A 64-character hex parent enters as raw bytes, any other parent as its text. */
  function ParentBytes(parent: Bytes): Bytes {
    if |parent| == 64 && FromHex(parent).Some? then FromHex(parent).value else parent
  }

  /** What `block_hash_v2` hashes; None where a field overflows its width. */
  function BlockPreimage(txs: seq<Tx>, parent: Bytes): (r: Option<Bytes>)
    ensures r.Some? <==> Fits(|txs|, 4) && ListEncodable(txs)
  {
    if Fits(|txs|, 4) && ListEncodable(txs)
    then Some(LittleEndian(|txs|, 4) + (ListBytes(txs) + ParentBytes(parent)))
    else None
  }

  /** Whatever follows a transaction sits behind its last field. */
  lemma {:induction false} TxBytesThen(tx: Tx, isCoinbase: bool, x: Bytes)
    requires TxEncodable(tx, isCoinbase)
    ensures var w := SlotWidth(isCoinbase);
      TxBytes(tx, isCoinbase) + x == LittleEndian(tx.timestamp, 8) + (LittleEndian(tx.amount, 8)
        + (Prefixed(tx.address, 1) + (Prefixed(tx.recipient, 1) + (Prefixed(tx.signature, w)
        + (Prefixed(tx.pubkey, w) + (FreeFields(tx.operation, tx.openfield) + x))))))
  {
    var w := SlotWidth(isCoinbase);
    var f := FreeFields(tx.operation, tx.openfield);
    var p := Prefixed(tx.pubkey, w) + f;
    var g := Prefixed(tx.signature, w) + p;
    var r := Prefixed(tx.recipient, 1) + g;
    var a := Prefixed(tx.address, 1) + r;
    Assoc(LittleEndian(tx.timestamp, 8), LittleEndian(tx.amount, 8) + a, x);
    Assoc(LittleEndian(tx.amount, 8), a, x);
    Assoc(Prefixed(tx.address, 1), r, x);
    Assoc(Prefixed(tx.recipient, 1), g, x);
    Assoc(Prefixed(tx.signature, w), p, x);
    Assoc(Prefixed(tx.pubkey, w), f, x);
  }

  lemma {:induction false} TxBytesCancel(s: Tx, x: Bytes, t: Tx, y: Bytes, isCoinbase: bool)
    requires TxEncodable(s, isCoinbase) && TxEncodable(t, isCoinbase)
    requires TxBytes(s, isCoinbase) + x == TxBytes(t, isCoinbase) + y
    ensures s == t && x == y
  {
    TxBytesThen(s, isCoinbase, x);
    TxBytesThen(t, isCoinbase, y);
    var w := SlotWidth(isCoinbase);
    var f1, f2 := FreeFields(s.operation, s.openfield) + x, FreeFields(t.operation, t.openfield) + y;
    var p1, p2 := Prefixed(s.pubkey, w) + f1, Prefixed(t.pubkey, w) + f2;
    var g1, g2 := Prefixed(s.signature, w) + p1, Prefixed(t.signature, w) + p2;
    var r1, r2 := Prefixed(s.recipient, 1) + g1, Prefixed(t.recipient, 1) + g2;
    var a1, a2 := Prefixed(s.address, 1) + r1, Prefixed(t.address, 1) + r2;
    FixedCancel(s.timestamp, LittleEndian(s.amount, 8) + a1, t.timestamp, LittleEndian(t.amount, 8) + a2, 8);
    FixedCancel(s.amount, a1, t.amount, a2, 8);
    PrefixedCancel(s.address, r1, t.address, r2, 1);
    PrefixedCancel(s.recipient, g1, t.recipient, g2, 1);
    PrefixedCancel(s.signature, p1, t.signature, p2, w);
    PrefixedCancel(s.pubkey, f1, t.pubkey, f2, w);
    FreeFieldsCancel(s.operation, s.openfield, x, t.operation, t.openfield, y);
  }

  lemma {:induction false} ListEncodableTail(txs: seq<Tx>, k: nat)
    requires ListEncodable(txs) && k <= |txs|
    ensures ListEncodable(txs[k..])
  {
    var tail := txs[k..];
    forall i | 0 <= i < |tail| ensures TxEncodable(tail[i], i == |tail| - 1) {
      assert tail[i] == txs[k + i];
    }
  }

  lemma {:induction false} ListBytesHead(txs: seq<Tx>)
    requires ListEncodable(txs) && txs != []
    ensures TxEncodable(txs[0], |txs| == 1) && ListEncodable(txs[1..])
    ensures ListBytes(txs) == TxBytes(txs[0], |txs| == 1) + ListBytes(txs[1..])
  {
    hide TxEncodable, TxBytes;
    ListEncodableTail(txs, 1);
  }

  lemma {:induction false} HeadCancel(s: seq<Tx>, x: Bytes, t: seq<Tx>, y: Bytes)
    requires |s| == |t| > 0 && ListEncodable(s) && ListEncodable(t)
    requires ListBytes(s) + x == ListBytes(t) + y
    ensures ListEncodable(s[1..]) && ListEncodable(t[1..])
    ensures s[0] == t[0] && ListBytes(s[1..]) + x == ListBytes(t[1..]) + y
  {
    hide ListEncodable, ListBytes, TxEncodable, TxBytes;
    ListBytesHead(s);
    ListBytesHead(t);
    var last := |s| == 1;
    var u, v := ListBytes(s[1..]), ListBytes(t[1..]);
    Assoc(TxBytes(s[0], last), u, x);
    Assoc(TxBytes(t[0], last), v, y);
    TxBytesCancel(s[0], u + x, t[0], v + y, last);
  }

  lemma {:induction false} ListBytesCancel(s: seq<Tx>, x: Bytes, t: seq<Tx>, y: Bytes)
    requires |s| == |t| && ListEncodable(s) && ListEncodable(t)
    requires ListBytes(s) + x == ListBytes(t) + y
    ensures s == t && x == y
  {
    if s != [] {
      hide ListEncodable, ListBytes;
      HeadCancel(s, x, t, y);
      ListBytesCancel(s[1..], x, t[1..], y);
      assert s == [s[0]] + s[1..] && t == [t[0]] + t[1..];
    } else {
      assert ListBytes(s) + x == x && ListBytes(t) + y == y;
    }
  }

  /** A parent hash: 64 lower-case hex digits after the fork, 56 before it. */
  predicate IsParent(parent: Bytes) {
    LowerHex(parent) && (|parent| == 64 || |parent| == 56)
  }

  /** A post-fork parent enters as the 32 bytes its digits stand for, a pre-fork parent as its text. */
  lemma {:induction false} ParentBytesAre(parent: Bytes)
    requires IsParent(parent)
    ensures |parent| == 64 ==> |ParentBytes(parent)| == 32 && ToHex(ParentBytes(parent)) == parent
    ensures |parent| == 56 ==> ParentBytes(parent) == parent
  {
    LowerHexRoundTrip(parent);
  }

  lemma {:induction false} ParentBytesInjective(p: Bytes, q: Bytes)
    requires IsParent(p) && IsParent(q) && ParentBytes(p) == ParentBytes(q)
    ensures p == q
  {
    LowerHexRoundTrip(p);
    LowerHexRoundTrip(q);
  }

  /**
   Two blocks with one pre-image are one block: the count fixes which transaction
   is the coinbase, and the parent is whatever the transactions leave over.
   */
  lemma {:induction false} BlockPreimageInjective(s: seq<Tx>, p: Bytes, t: seq<Tx>, q: Bytes)
    requires IsParent(p) && IsParent(q)
    requires BlockPreimage(s, p).Some? && BlockPreimage(s, p) == BlockPreimage(t, q)
    ensures s == t && p == q
  {
    FixedCancel(|s|, ListBytes(s) + ParentBytes(p), |t|, ListBytes(t) + ParentBytes(q), 4);
    ListBytesCancel(s, ParentBytes(p), t, ParentBytes(q));
    ParentBytesInjective(p, q);
  }

  lemma {:induction false} ListBytesFrom(txs: seq<Tx>, k: nat)
    requires ListEncodable(txs) && k < |txs|
    ensures ListEncodable(txs[k..]) && ListEncodable(txs[k + 1..])
    ensures ListBytes(txs[k..]) == TxBytes(txs[k], k == |txs| - 1) + ListBytes(txs[k + 1..])
  {
    ListEncodableTail(txs, k);
    ListEncodableTail(txs, k + 1);
    assert txs[k..][1..] == txs[k + 1..];
  }

  /** After `i` transactions: what is built, plus what the rest will add, is the whole. */
  ghost predicate BuiltUpTo(txs: seq<Tx>, i: nat, head: Bytes, pre: Bytes)
    requires i <= |txs|
  {
    ListEncodable(txs) ==> ListEncodable(txs[i..]) && pre + ListBytes(txs[i..]) == head + ListBytes(txs)
  }

  lemma {:induction false} BuildStep(txs: seq<Tx>, i: nat, head: Bytes, pre: Bytes)
    requires i < |txs| && BuiltUpTo(txs, i, head, pre)
    requires TxEncodable(txs[i], i == |txs| - 1)
    ensures BuiltUpTo(txs, i + 1, head, pre + TxBytes(txs[i], i == |txs| - 1))
  {
    if ListEncodable(txs) {
      ListBytesFrom(txs, i);
      Assoc(pre, TxBytes(txs[i], i == |txs| - 1), ListBytes(txs[i + 1..]));
    }
  }

  lemma {:induction false} BuildStart(txs: seq<Tx>, head: Bytes)
    ensures BuiltUpTo(txs, 0, head, head)
  {
    assert txs[0..] == txs;
  }

  lemma {:induction false} BuildDone(txs: seq<Tx>, pre: Bytes, parent: Bytes)
    requires Fits(|txs|, 4) && ListEncodable(txs) && BuiltUpTo(txs, |txs|, LittleEndian(|txs|, 4), pre)
    ensures BlockPreimage(txs, parent) == Some(pre + ParentBytes(parent))
  {
    var head := LittleEndian(|txs|, 4);
    assert txs[|txs|..] == [];
    assert pre + [] == pre;
    Assoc(head, ListBytes(txs), ParentBytes(parent));
  }

  /** `block_hash_v2` up to the hash itself: the loop that appends one transaction at a time. */
  method BuildBlockPreimage(txs: seq<Tx>, parent: Bytes) returns (r: Option<Bytes>)
    ensures r == BlockPreimage(txs, parent)
  {
    hide BuiltUpTo, TxBytes, ListBytes, TxEncodable, ParentBytes, BlockPreimage, LittleEndian;
    if !Fits(|txs|, 4) {
      return None;
    }
    var head := LittleEndian(|txs|, 4);
    var pre := head;
    var i := 0;
    BuildStart(txs, head);
    while i < |txs|
      invariant 0 <= i <= |txs|
      invariant forall j :: 0 <= j < i ==> TxEncodable(txs[j], j == |txs| - 1)
      invariant BuiltUpTo(txs, i, head, pre)
    {
      if !TxEncodable(txs[i], i == |txs| - 1) {
        return None;
      }
      BuildStep(txs, i, head, pre);
      pre := pre + TxBytes(txs[i], i == |txs| - 1);
      i := i + 1;
    }
    BuildDone(txs, pre, parent);
    r := Some(pre + ParentBytes(parent));
  }
}

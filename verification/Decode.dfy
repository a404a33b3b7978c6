/**
 A reader of the post-fork binary layouts, field by field in the order they are specified: numbers are
 little-endian, variable fields stand behind their length, a flag byte says which free fields follow.
 */
module Decode {
  import opened Wrappers
  import opened ByteStrings
  import opened Transactions
  import opened Serialize

  /** A number of `w` bytes, and what follows it. */
  function Number(b: Bytes, w: nat): Option<(nat, Bytes)> {
    if |b| < w then None else Some((FromLittleEndian(b[..w]), b[w..]))
  }

  /** A field behind its length, and what follows it. */
  function Field(b: Bytes, w: nat): Option<(Bytes, Bytes)> {
    var n :- Number(b, w);
    if |n.1| < n.0 then None else Some((n.1[..n.0], n.1[n.0..]))
  }

  function FieldIf(b: Bytes, present: bool): Option<(Bytes, Bytes)> {
    if present then Field(b, 4) else Some(([], b))
  }

  /** FLAGS u8, then operation if bit 0 is set, then openfield if bit 1 is set. */
  function ReadFree(b: Bytes): Option<(Bytes, Bytes, Bytes)> {
    var flags :- Number(b, 1);
    var op :- FieldIf(flags.1, flags.0 % 2 == 1);
    var of :- FieldIf(op.1, flags.0 / 2 % 2 == 1);
    Some((op.0, of.0, of.1))
  }

  /** MAGIC u8, VERSION u8, timestamp u64, amount u64, address and recipient behind u8 lengths, free fields. */
  function ReadContent(b: Bytes): Option<Content> {
    if |b| < 2 || b[0] != 0xB2 || b[1] != 0x02 then None else
      var timestamp :- Number(b[2..], 8);
      var amount :- Number(timestamp.1, 8);
      var address :- Field(amount.1, 1);
      var recipient :- Field(address.1, 1);
      var free :- ReadFree(recipient.1);
      if free.2 != [] then None else
        Some(Content(timestamp.0, amount.0, address.0, recipient.0, Some(free.0), Some(free.1)))
  }

  /**
   Timestamp u64, amount u64, address and recipient behind u8 lengths, signature and key behind u16
   lengths (u8 in the coinbase), free fields.
   */
  function ReadTx(b: Bytes, isCoinbase: bool): Option<(Tx, Bytes)> {
    var w := if isCoinbase then 1 else 2;
    var timestamp :- Number(b, 8);
    var amount :- Number(timestamp.1, 8);
    var address :- Field(amount.1, 1);
    var recipient :- Field(address.1, 1);
    var signature :- Field(recipient.1, w);
    var pubkey :- Field(signature.1, w);
    var free :- ReadFree(pubkey.1);
    if |address.0| > 255 || |recipient.0| > 255 then None else
      Some((Tx(timestamp.0, address.0, recipient.0, amount.0, signature.0, pubkey.0, free.0, free.1), free.2))
  }

  /** `n` transactions, the last one the coinbase. */
  function ReadTxs(b: Bytes, n: nat): Option<(seq<Tx>, Bytes)>
    decreases n
  {
    if n == 0 then Some(([], b)) else
      var first :- ReadTx(b, n == 1);
      var rest :- ReadTxs(first.1, n - 1);
      Some(([first.0] + rest.0, rest.1))
  }

  /** The number of transactions u32, the transactions, and the parent's bytes. */
  function ReadBlock(b: Bytes): Option<(seq<Tx>, Bytes)> {
    var n :- Number(b, 4);
    ReadTxs(n.1, n.0)
  }

  // ------------------------------------------------------------------ what was written is read

  lemma {:induction false} NumberReads(n: nat, w: nat, x: Bytes)
    requires Fits(n, w)
    ensures Number(LittleEndian(n, w) + x, w) == Some((n, x))
  {
    var b := LittleEndian(n, w);
    LittleEndianRoundTrip(n, w);
    assert (b + x)[..w] == b && (b + x)[w..] == x;
  }

  lemma {:induction false} FieldReads(field: Bytes, w: nat, x: Bytes)
    requires Fits(|field|, w)
    ensures Field(Prefixed(field, w) + x, w) == Some((field, x))
  {
    hide Number;
    Assoc(LittleEndian(|field|, w), field, x);
    NumberReads(|field|, w, field + x);
    assert (field + x)[..|field|] == field && (field + x)[|field|..] == x;
  }

  lemma {:induction false} FieldIfReads(field: Bytes, x: Bytes)
    requires Fits(|field|, 4)
    ensures FieldIf(Optional(field) + x, field != []) == Some((field, x))
  {
    hide Field, Prefixed;
    if field != [] {
      FieldReads(field, 4, x);
    } else {
      assert [] + x == x;
    }
  }

  lemma {:induction false} FlagReads(flag: Byte, x: Bytes)
    ensures Number([flag] + x, 1) == Some((flag, x))
  {
    var b := [flag] + x;
    assert b[..1] == [flag] && b[1..] == x && [flag][1..] == [];
    assert FromLittleEndian([]) == 0;
    assert FromLittleEndian([flag]) == flag + 256 * FromLittleEndian([flag][1..]);
  }

  lemma {:induction false} FreeReads(op: Bytes, of: Bytes, x: Bytes)
    requires Fits(|op|, 4) && Fits(|of|, 4)
    ensures ReadFree(FreeFields(op, of) + x) == Some((op, of, x))
  {
    hide Number, FieldIf, Optional, Pow256;
    var flag: Byte := (if op != [] then 1 else 0) + (if of != [] then 2 else 0);
    Assoc([flag], Optional(op) + Optional(of), x);
    Assoc(Optional(op), Optional(of), x);
    FlagReads(flag, Optional(op) + (Optional(of) + x));
    FieldIfReads(op, Optional(of) + x);
    FieldIfReads(of, x);
  }

  /** The signing pre-image holds its six fields where the layout puts them; absent free fields read as empty. */
  lemma {:induction false} ContentReads(c: Content)
    requires Encodable(c)
    ensures ReadContent(SignatureBuffer(c).value) == Some(Content(
      c.timestamp, c.amount, c.address, c.recipient, Some(Present(c.operation)), Some(Present(c.openfield))))
  {
    hide Number, Field, ReadFree, FreeFields, Prefixed, LittleEndian, Pow256;
    var f := FreeFields(Present(c.operation), Present(c.openfield));
    var r := Prefixed(c.recipient, 1) + f;
    var a := Prefixed(c.address, 1) + r;
    var m := LittleEndian(c.amount, 8) + a;
    var t := LittleEndian(c.timestamp, 8) + m;
    var b := SignatureBuffer(c).value;
    assert b == [MAGIC, VERSION] + t;
    assert b[0] == 0xB2 && b[1] == 0x02 && b[2..] == t;
    NumberReads(c.timestamp, 8, m);
    NumberReads(c.amount, 8, a);
    FieldReads(c.address, 1, r);
    FieldReads(c.recipient, 1, f);
    assert f + [] == f;
    FreeReads(Present(c.operation), Present(c.openfield), []);
  }

  lemma {:induction false} TxReads(tx: Tx, isCoinbase: bool, x: Bytes)
    requires TxEncodable(tx, isCoinbase)
    ensures ReadTx(TxBytes(tx, isCoinbase) + x, isCoinbase) == Some((tx, x))
  {
    hide Number, Field, ReadFree, FreeFields, Prefixed, LittleEndian, Pow256, TxBytes;
    TxBytesThen(tx, isCoinbase, x);
    var w := SlotWidth(isCoinbase);
    var f := FreeFields(tx.operation, tx.openfield) + x;
    var p := Prefixed(tx.pubkey, w) + f;
    var g := Prefixed(tx.signature, w) + p;
    var r := Prefixed(tx.recipient, 1) + g;
    var a := Prefixed(tx.address, 1) + r;
    NumberReads(tx.timestamp, 8, LittleEndian(tx.amount, 8) + a);
    NumberReads(tx.amount, 8, a);
    FieldReads(tx.address, 1, r);
    FieldReads(tx.recipient, 1, g);
    FieldReads(tx.signature, w, p);
    FieldReads(tx.pubkey, w, f);
    FreeReads(tx.operation, tx.openfield, x);
  }

  lemma {:induction false} ReadNext(b: Bytes, n: nat, tx: Tx, rest: Bytes, txs: seq<Tx>, x: Bytes)
    requires n > 0 && ReadTx(b, n == 1) == Some((tx, rest)) && ReadTxs(rest, n - 1) == Some((txs, x))
    ensures ReadTxs(b, n) == Some(([tx] + txs, x))
  {
    hide ReadTx;
  }

  lemma {:induction false} NothingRead(x: Bytes)
    ensures ListEncodable([]) && ReadTxs(ListBytes([]) + x, 0) == Some(([], x))
  {
    assert [] + x == x;
  }

  lemma {:induction false} HeadAndTail<T>(s: seq<T>)
    requires s != []
    ensures [s[0]] + s[1..] == s
  {
  }

  lemma {:induction false} TxsRead(txs: seq<Tx>, x: Bytes)
    requires ListEncodable(txs)
    ensures ReadTxs(ListBytes(txs) + x, |txs|) == Some((txs, x))
  {
    hide ReadTx, ReadTxs, ListEncodable, ListBytes, TxBytes, TxEncodable;
    if txs == [] {
      NothingRead(x);
    } else {
      var last := |txs| == 1;
      ListBytesHead(txs);
      Assoc(TxBytes(txs[0], last), ListBytes(txs[1..]), x);
      TxReads(txs[0], last, ListBytes(txs[1..]) + x);
      TxsRead(txs[1..], x);
      ReadNext(ListBytes(txs) + x, |txs|, txs[0], ListBytes(txs[1..]) + x, txs[1..], x);
      HeadAndTail(txs);
    }
  }

  /** The block pre-image holds the count, the transactions in order, and the parent. */
  lemma {:induction false} BlockReads(txs: seq<Tx>, parent: Bytes)
    requires BlockPreimage(txs, parent).Some?
    ensures ReadBlock(BlockPreimage(txs, parent).value) == Some((txs, ParentBytes(parent)))
  {
    hide Number, ReadTxs, ListBytes, ListEncodable, ParentBytes, LittleEndian;
    NumberReads(|txs|, 4, ListBytes(txs) + ParentBytes(parent));
    TxsRead(txs, ParentBytes(parent));
  }
}

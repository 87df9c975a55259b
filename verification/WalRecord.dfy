/** The write-ahead log record: its factories, its byte format and the decoder. */
module WalRecords {
  import opened Keys
  import opened LittleEndian

  const OP_CREATE: Byte := 0
  const OP_COMMIT: Byte := 1
  const OP_ROLLBACK: Byte := 2
  const OP_PUT: Byte := 3
  const OP_DELETE: Byte := 4

  datatype Record = Record(op: Byte, tid: nat, key: Key, value: Value)

  function CreateRecord(t: nat): Record { Record(OP_CREATE, t, [], []) }
  function CommitRecord(t: nat): Record { Record(OP_COMMIT, t, [], []) }
  function PutRecord(t: nat, k: Key, v: Value): Record { Record(OP_PUT, t, k, v) }
  function DeleteRecord(t: nat, k: Key): Record { Record(OP_DELETE, t, k, []) }

  /** A record as the factories make it. */
  predicate Made(r: Record) {
    && r.op <= OP_DELETE
    && (r.op != OP_PUT && r.op != OP_DELETE ==> r.key == [])
    && (r.op != OP_PUT ==> r.value == [])
  }

  /** 2 bytes of length, 8 of transaction id, 1 of operation, then the length-prefixed strings. */
  function Length(r: Record): nat {
    11 + (if r.op == OP_PUT then 2 + |r.key| + 2 + |r.value|
          else if r.op == OP_DELETE then 2 + |r.key| else 0)
  }

  /** The length field has 16 bits and the id 64. */
  predicate Fits(r: Record) {
    Made(r) && Length(r) < TWO_16 && r.tid < TWO_64
  }

  // ---- encoding -----------------------------------------------------------------------------------

  function Encode(r: Record): (s: seq<Byte>)
    ensures |s| == Length(r)
  {
    ToBytes(Length(r), 2) + ToBytes(r.tid, 8) + [r.op] +
    (if r.op == OP_PUT then ToBytes(|r.key|, 2) + r.key + ToBytes(|r.value|, 2) + r.value
     else if r.op == OP_DELETE then ToBytes(|r.key|, 2) + r.key
     else [])
  }

  function EncodeAll(rs: seq<Record>): seq<Byte> {
    if rs == [] then [] else Encode(rs[0]) + EncodeAll(rs[1..])
  }

  // ---- decoding -----------------------------------------------------------------------------------

  /** One record and the position after it; `LengthMismatch` is the decoder's exception and
      `OutOfBounds` a read past the buffer, which the decoder does not guard against. */
  datatype Parsed = Got(record: Record, next: nat) | LengthMismatch | OutOfBounds

  /** A length-prefixed string at `pos`: the string and the position after it. */
  function Field(data: seq<Byte>, pos: nat): (r: (bool, seq<Byte>, nat))
    ensures r.0 ==> r.2 <= |data|
  {
    if pos + 2 > |data| then (false, [], 0)
    else
      var n := Number(data, pos, 2);
      if pos + 2 + n > |data| then (false, [], 0) else (true, data[pos + 2..pos + 2 + n], pos + 2 + n)
  }

  function DecodeOne(data: seq<Byte>, pos: nat): (r: Parsed)
    requires pos <= |data|
    ensures r.Got? ==> pos < r.next <= |data|
  {
    if pos + 2 > |data| then OutOfBounds
    else if |data| < Number(data, pos, 2) then LengthMismatch
    else if pos + 11 > |data| then OutOfBounds
    else
      var tid, op := Number(data, pos + 2, 8), data[pos + 10];
      if op == OP_PUT then
        var (ok, k, p) := Field(data, pos + 11);
        if !ok then OutOfBounds
        else
          var (ok', v, p') := Field(data, p);
          FieldEnds(data, pos + 11);
          FieldEnds(data, p);
          if !ok' then OutOfBounds else Got(Record(op, tid, k, v), p')
      else if op == OP_DELETE then
        var (ok, k, p) := Field(data, pos + 11);
        FieldEnds(data, pos + 11);
        if !ok then OutOfBounds else Got(Record(op, tid, k, []), p)
      else Got(Record(op, tid, [], []), pos + 11)
  }

  lemma FieldEnds(data: seq<Byte>, pos: nat)
    ensures Field(data, pos).0 ==> Field(data, pos).2 > pos
  {
  }

  datatype Decoded = Records(rs: seq<Record>) | Failed(step: Parsed)

  function DecodeFrom(data: seq<Byte>, pos: nat): Decoded
    requires pos <= |data|
    decreases |data| - pos
  {
    if pos == |data| then Records([])
    else
      match DecodeOne(data, pos)
      case Got(r, next) =>
        (match DecodeFrom(data, next)
         case Records(rs) => Records([r] + rs)
         case Failed(s) => Failed(s))
      case LengthMismatch => Failed(LengthMismatch)
      case OutOfBounds => Failed(OutOfBounds)
  }

  /** The decoder's loop. */
  method Decode(data: seq<Byte>) returns (result: Decoded)
    ensures result == if |data| < 11 then Records([]) else DecodeFrom(data, 0)
  {
    hide DecodeOne;
    if |data| < 11 {
      return Records([]);
    }
    var records: seq<Record> := [];
    var pos := 0;
    while pos < |data|
      invariant 0 <= pos <= |data|
      invariant DecodeFrom(data, 0) == match DecodeFrom(data, pos)
                                       case Records(rs) => Records(records + rs)
                                       case Failed(s) => Failed(s)
      decreases |data| - pos
    {
      match DecodeOne(data, pos)
      case Got(r, next) =>
        assert forall rs: seq<Record> :: records + ([r] + rs) == records + [r] + rs;
        records := records + [r];
        pos := next;
      case LengthMismatch =>
        return Failed(LengthMismatch);
      case OutOfBounds =>
        return Failed(OutOfBounds);
    }
    return Records(records);
  }

  // ---- round trip ---------------------------------------------------------------------------------

  lemma {:induction false} HoldsField(data: seq<Byte>, pos: nat, s: seq<Byte>)
    requires |s| < TWO_16 && Holds(data, pos, ToBytes(|s|, 2) + s)
    ensures Field(data, pos) == (true, s, pos + 2 + |s|)
  {
    HoldsParts(data, pos, ToBytes(|s|, 2), s);
    Widths();
    HoldsNumber(data, pos, |s|, 2);
  }

  /** The body of a record after its 11-byte head. */
  function Body(r: Record): seq<Byte> {
    if r.op == OP_PUT then (ToBytes(|r.key|, 2) + r.key) + (ToBytes(|r.value|, 2) + r.value)
    else if r.op == OP_DELETE then ToBytes(|r.key|, 2) + r.key
    else []
  }

  lemma {:induction false} EncodeSplits(r: Record)
    ensures Encode(r) == ToBytes(Length(r), 2) + (ToBytes(r.tid, 8) + ([r.op] + Body(r)))
  {
    hide ToBytes;
  }

  /** The head of an encoded record: its length, its id and its operation stand where the
      readers of the log look for them. */
  lemma {:induction false} HeadOf(data: seq<Byte>, pos: nat, r: Record)
    requires Fits(r) && Holds(data, pos, Encode(r))
    ensures Number(data, pos, 2) == Length(r) && Number(data, pos + 2, 8) == r.tid
    ensures data[pos + 10] == r.op && Holds(data, pos + 11, Body(r))
  {
    hide ToBytes, FromBytes, Pow256, Encode;
    EncodeSplits(r);
    Widths();
    HoldsParts(data, pos, ToBytes(Length(r), 2), ToBytes(r.tid, 8) + ([r.op] + Body(r)));
    HoldsParts(data, pos + 2, ToBytes(r.tid, 8), [r.op] + Body(r));
    HoldsParts(data, pos + 10, [r.op], Body(r));
    HoldsNumber(data, pos, Length(r), 2);
    HoldsNumber(data, pos + 2, r.tid, 8);
    assert data[pos + 10..pos + 11][0] == data[pos + 10];
  }

  /** Every byte of the head of an encoded record, and of the lengths in a put. */
  lemma {:induction false} BytesOfHead(r: Record, i: nat)
    ensures i < 2 ==> Encode(r)[i] == Length(r) / Pow256(i) % 256
    ensures 2 <= i < 10 ==> Encode(r)[i] == r.tid / Pow256(i - 2) % 256
    ensures Encode(r)[10] == r.op
    ensures r.op == OP_PUT && 11 <= i < 13 ==> Encode(r)[i] == |r.key| / Pow256(i - 11) % 256
    ensures r.op == OP_PUT && 13 + |r.key| <= i < 15 + |r.key| ==>
              Encode(r)[i] == |r.value| / Pow256(i - 13 - |r.key|) % 256
  {
    hide ToBytes, Pow256;
    EncodeSplits(r);
    if i < 2 {
      DigitAt(Length(r), 2, i);
    } else if i < 10 {
      DigitAt(r.tid, 8, i - 2);
    } else if 11 <= i < 13 {
      DigitAt(|r.key|, 2, i - 11);
    } else if 13 + |r.key| <= i < 15 + |r.key| {
      DigitAt(|r.value|, 2, i - 13 - |r.key|);
    }
  }

  /** The bytes of one record of each kind that the log holds. */
  lemma {:induction false} Samples()
    ensures Encode(CreateRecord(1)) == [11, 0, 1, 0, 0, 0, 0, 0, 0, 0, 0]
    ensures Encode(CommitRecord(1)) == [11, 0, 1, 0, 0, 0, 0, 0, 0, 0, 1]
    ensures Encode(PutRecord(258, [97], [98])) == [17, 0, 2, 1, 0, 0, 0, 0, 0, 0, 3, 1, 0, 97, 1, 0, 98]
    ensures Encode(DeleteRecord(258, [97])) == [14, 0, 2, 1, 0, 0, 0, 0, 0, 0, 4, 1, 0, 97]
  {
    hide ToBytes;
    TwoBytes(1);
    TwoBytes(11);
    TwoBytes(14);
    TwoBytes(17);
    EightBytes(1);
    EightBytes(258);
  }

  lemma TwoBytes(n: nat)
    requires n < 256
    ensures ToBytes(n, 2) == [n, 0]
  {
    hide ToBytes;
    Unfold(n, 2);
    Unfold(0, 1);
    Unfold(0, 0);
  }

  lemma EightBytes(n: nat)
    requires n < TWO_16
    ensures ToBytes(n, 8) == [n % 256, n / 256, 0, 0, 0, 0, 0, 0]
  {
    hide ToBytes;
    Unfold(n, 8);
    Unfold(n / 256, 7);
    Zeros();
  }

  lemma Zeros()
    ensures ToBytes(0, 6) == [0, 0, 0, 0, 0, 0]
  {
    hide ToBytes;
    Unfold(0, 6);
    Unfold(0, 5);
    Unfold(0, 4);
    Unfold(0, 3);
    Unfold(0, 2);
    Unfold(0, 1);
    Unfold(0, 0);
  }

  lemma Unfold(n: nat, w: nat)
    ensures ToBytes(n, w) == if w == 0 then [] else [n % 256] + ToBytes(n / 256, w - 1)
  {
  }

  lemma {:induction false} DecodeOneInverts(data: seq<Byte>, pos: nat, r: Record)
    requires Fits(r) && Holds(data, pos, Encode(r))
    ensures DecodeOne(data, pos) == Got(r, pos + Length(r))
  {
    hide ToBytes, FromBytes, Pow256, Field, Encode, Number;
    HeadOf(data, pos, r);
    if r.op == OP_PUT {
      HoldsParts(data, pos + 11, ToBytes(|r.key|, 2) + r.key, ToBytes(|r.value|, 2) + r.value);
      HoldsField(data, pos + 11, r.key);
      HoldsField(data, pos + 13 + |r.key|, r.value);
    } else if r.op == OP_DELETE {
      HoldsField(data, pos + 11, r.key);
    }
  }

  lemma {:induction false} DecodeFromInverts(data: seq<Byte>, pos: nat, rs: seq<Record>)
    requires forall i :: 0 <= i < |rs| ==> Fits(rs[i])
    requires Holds(data, pos, EncodeAll(rs)) && pos + |EncodeAll(rs)| == |data|
    ensures DecodeFrom(data, pos) == Records(rs)
    decreases |rs|
  {
    hide Encode, DecodeOne, DecodeFrom, Holds, Made;
    if rs == [] {
      DecodeFromEnd(data);
    } else {
      var r, rest := rs[0], rs[1..];
      assert EncodeAll(rs) == Encode(r) + EncodeAll(rest) && rs == [r] + rest;
      HoldsParts(data, pos, Encode(r), EncodeAll(rest));
      DecodeOneInverts(data, pos, r);
      DecodeFromInverts(data, pos + Length(r), rest);
      DecodeFromStep(data, pos, r, pos + Length(r), rest);
    }
  }

  lemma DecodeFromEnd(data: seq<Byte>)
    ensures DecodeFrom(data, |data|) == Records([])
  {
  }

  lemma DecodeFromStep(data: seq<Byte>, pos: nat, r: Record, next: nat, rest: seq<Record>)
    requires pos < |data| && DecodeOne(data, pos) == Got(r, next) && DecodeFrom(data, next) == Records(rest)
    ensures DecodeFrom(data, pos) == Records([r] + rest)
  {
    hide DecodeOne;
  }

  /** Decoding the concatenated encodings gives the same records back, for any number of them. */
  lemma {:induction false} RoundTrip(rs: seq<Record>)
    requires forall i :: 0 <= i < |rs| ==> Fits(rs[i])
    ensures var data := EncodeAll(rs);
            (if |data| < 11 then Records([]) else DecodeFrom(data, 0)) == Records(rs)
  {
    hide Encode, DecodeFrom;
    var data := EncodeAll(rs);
    assert data[0..0 + |data|] == data;
    DecodeFromInverts(data, 0, rs);
    assert rs != [] ==> |data| >= Length(rs[0]);
  }
}

/**
 The hand-built E2AP RIC Control Requests of the RC and CCC modules: a PDU whose
 length octets are written by hand, and a reader that trusts those lengths. The
 reader follows section 11.9 of ITU-T X.691 (`aligned`), or takes every length
 as one plain octet.
 */
module Framing {
  import opened Common

  // ---------------------------------------------------------- requestor ids

  function NextId(id: int): (r: int)
    ensures 0 <= r < 255
  {
    (id + 1) % 255
  }

  /** The id that the k-th of the following calls returns. */
  function IdAfter(id: int, k: nat): int {
    if k == 0 then id else NextId(IdAfter(id, k - 1))
  }

  lemma NextResidue(x: nat)
    ensures (x % 255 + 1) % 255 == (x + 1) % 255
  {
    assert x == 255 * (x / 255) + x % 255;
  }

  lemma {:induction false} IdAfterIs(id: int, k: nat)
    requires 0 <= id < 255
    ensures IdAfter(id, k) == (id + k) % 255
  {
    if k > 0 {
      IdAfterIs(id, k - 1);
      NextResidue(id + k - 1);
    }
  }

  lemma Residues(x: nat, y: nat)
    requires x < y <= x + 255
    ensures x % 255 == y % 255 <==> y == x + 255
  {
  }

  /** Ids repeat every 255 calls and never sooner. */
  lemma IdsDiffer(id: int, i: nat, j: nat)
    requires 0 <= id < 255 && i < j <= i + 255
    ensures IdAfter(id, i) == IdAfter(id, j) <==> j == i + 255
  {
    IdAfterIs(id, i);
    IdAfterIs(id, j);
    Residues(id + i, id + j);
  }

  // --------------------------------------------------------------- building

  predicate AllOctets(xs: seq<nat>) {
    forall i :: 0 <= i < |xs| ==> xs[i] < 256
  }

  /** Every element must be an octet, or Python's bytes() raises. */
  function Bytes(xs: seq<nat>): (r: Option<seq<Byte>>)
    ensures r.Some? <==> AllOctets(xs)
    ensures r.Some? ==> r.value == xs
  {
    if AllOctets(xs) then Some(seq(|xs|, i requires 0 <= i < |xs| => xs[i])) else None
  }

  /** One octet below 256, else two with the top bits forced to 10; to_bytes(2) raises from 65536 on. */
  function EncodeLength(n: nat): Option<seq<Byte>> {
    if n < 256 then Some([n])
    else if n < 65536 then Some([(n / 256) % 64 + 128, n % 256])
    else None
  }

  /** The PDU around given length fields; `hv` and `mv` are the header and message values with their inner lengths. */
  function Body(id: nat, ranFunc: nat, hl: seq<nat>, hv: seq<nat>, ml: seq<nat>, mv: seq<nat>, ack: nat): seq<nat> {
    [0x00, 0x00, 0x05]
    + ([0x00, 0x1d, 0x00, 0x05, 0x00, 0x00, id, 0x00, 0x00]
    + ([0x00, 0x05, 0x00, 0x02, 0x00, ranFunc]
    + ([0x00, 0x16, 0x00] + hl + hv
    + ([0x00, 0x17, 0x00] + ml + mv
    + [0x00, 0x15, 0x00, 0x01, 64 * ack]))))
  }

  /** The RC builder: every length is one octet. */
  function RcRequest(id: nat, ranFunc: nat, header: seq<Byte>, msg: seq<Byte>, ack: nat): Option<seq<Byte>> {
    var h, m := |header|, |msg|;
    Bytes([0x00, 0x04, 0x00] + ([33 + h + m] + Body(id, ranFunc, [h + 1], [h] + header, [m + 1], [m] + msg, ack)))
  }

  /** The CCC builder: lengths are encoded, and the total is a sum of constants. */
  function CccRequest(id: nat, ranFunc: nat, header: seq<Byte>, msg: seq<Byte>, ack: nat): Option<seq<Byte>> {
    var h, m := |header|, |msg|;
    var total, hl, hi, ml, mi :=
      EncodeLength(35 + h + m), EncodeLength(h + 1), EncodeLength(h), EncodeLength(m + 2), EncodeLength(m);
    if total.None? || hl.None? || hi.None? || ml.None? || mi.None? then None
    else Bytes([0x00, 0x04, 0x00] + (total.value
               + Body(id, ranFunc, hl.value, hi.value + header, ml.value, mi.value + msg, ack)))
  }

  // ---------------------------------------------------------------- reading

  datatype Cut<T> = Cut(value: T, rest: seq<Byte>)

  datatype Control = Control(requestId: seq<Byte>, ranFunc: seq<Byte>, header: seq<Byte>, msg: seq<Byte>, ack: seq<Byte>)

  /** The 14-bit length in two octets whose top bits are 10. */
  function LongLength(a: int, b: int): int {
    (a - 128) * 256 + b
  }

  function ReadLength(aligned: bool, s: seq<Byte>): Option<Cut<nat>> {
    if s == [] then None
    else if !aligned || s[0] < 128 then Some(Cut(s[0], s[1..]))
    else if s[0] < 192 && |s| > 1 then Some(Cut(LongLength(s[0], s[1]), s[2..]))
    else None
  }

  /** A length and that many octets. */
  function ReadOctets(aligned: bool, s: seq<Byte>): Option<Cut<seq<Byte>>> {
    var l := ReadLength(aligned, s);
    if l.None? || |l.value.rest| < l.value.value then None
    else Some(Cut(l.value.rest[..l.value.value], l.value.rest[l.value.value..]))
  }

  /** A length and that many octets, with nothing behind them. */
  function ReadWhole(aligned: bool, s: seq<Byte>): Option<seq<Byte>> {
    var o := ReadOctets(aligned, s);
    if o.None? || o.value.rest != [] then None else Some(o.value.value)
  }

  /** An information element with the given id and criticality reject. */
  function ReadElement(aligned: bool, id: Byte, s: seq<Byte>): Option<Cut<seq<Byte>>> {
    if |s| < 3 || s[..3] != [0x00, id, 0x00] then None else ReadOctets(aligned, s[3..])
  }

  /** An element that holds nothing but an octet string. */
  function ReadString(aligned: bool, id: Byte, s: seq<Byte>): Option<Cut<seq<Byte>>> {
    var e := ReadElement(aligned, id, s);
    if e.None? then None else
    var v := ReadWhole(aligned, e.value.value);
    if v.None? then None else Some(Cut(v.value, e.value.rest))
  }

  /** The last three elements. */
  function ReadControlElements(aligned: bool, requestId: seq<Byte>, ranFunc: seq<Byte>, s: seq<Byte>): Option<Control> {
    var h := ReadString(aligned, 0x16, s);
    if h.None? then None else
    var m := ReadString(aligned, 0x17, h.value.rest);
    if m.None? then None else
    var a := ReadElement(aligned, 0x15, m.value.rest);
    if a.None? || a.value.rest != [] then None
    else Some(Control(requestId, ranFunc, h.value.value, m.value.value, a.value.value))
  }

  function ReadBody(aligned: bool, s: seq<Byte>): Option<Control> {
    if |s| < 3 || s[..3] != [0x00, 0x00, 0x05] then None else
    var r := ReadElement(aligned, 0x1d, s[3..]);
    if r.None? then None else
    var f := ReadElement(aligned, 0x05, r.value.rest);
    if f.None? then None else ReadControlElements(aligned, r.value.value, f.value.value, f.value.rest)
  }

  /** The outermost layer: the initiating message and its total length. */
  function ReadEnvelope(aligned: bool, s: seq<Byte>): Option<seq<Byte>> {
    if |s| < 3 || s[..3] != [0x00, 0x04, 0x00] then None else ReadWhole(aligned, s[3..])
  }

  function ReadRequest(aligned: bool, s: seq<Byte>): Option<Control> {
    var body := ReadEnvelope(aligned, s);
    if body.None? then None else ReadBody(aligned, body.value)
  }

  // -------------------------------------------------------- reading a frame

  /** The field l is read as the length n. */
  ghost predicate Codes(aligned: bool, l: seq<Byte>, n: nat) {
    || (|l| == 1 && n == l[0] && (aligned ==> n < 128))
    || (aligned && |l| == 2 && 128 <= l[0] < 192 && n == LongLength(l[0], l[1]))
  }

  lemma ReadCoded(aligned: bool, l: seq<Byte>, n: nat, rest: seq<Byte>)
    requires Codes(aligned, l, n)
    ensures ReadLength(aligned, l + rest) == Some(Cut(n, rest))
  {
    assert (l + rest)[|l|..] == rest;
  }

  lemma ReadCodedOctets(aligned: bool, l: seq<Byte>, v: seq<Byte>, rest: seq<Byte>)
    requires Codes(aligned, l, |v|)
    ensures ReadOctets(aligned, l + (v + rest)) == Some(Cut(v, rest))
  {
    ReadCoded(aligned, l, |v|, v + rest);
  }

  lemma ReadCodedWhole(aligned: bool, l: seq<Byte>, v: seq<Byte>)
    requires Codes(aligned, l, |v|)
    ensures ReadWhole(aligned, l + v) == Some(v)
  {
    assert v + [] == v;
    ReadCodedOctets(aligned, l, v, []);
  }

  lemma ReadCodedElement(aligned: bool, id: Byte, l: seq<Byte>, v: seq<Byte>, rest: seq<Byte>)
    requires Codes(aligned, l, |v|)
    ensures ReadElement(aligned, id, [0x00, id, 0x00] + l + v + rest) == Some(Cut(v, rest))
  {
    var s: seq<Byte> := [0x00, id, 0x00] + l + v + rest;
    ReadCodedOctets(aligned, l, v, rest);
    assert s[..3] == [0x00, id, 0x00] && s[3..] == l + (v + rest);
  }

  lemma ReadCodedString(aligned: bool, id: Byte, l: seq<Byte>, i: seq<Byte>, v: seq<Byte>, rest: seq<Byte>)
    requires Codes(aligned, l, |i| + |v|) && Codes(aligned, i, |v|)
    ensures ReadString(aligned, id, [0x00, id, 0x00] + l + (i + v) + rest) == Some(Cut(v, rest))
  {
    ReadCodedElement(aligned, id, l, i + v, rest);
    ReadCodedWhole(aligned, i, v);
  }

  function MessageAndAck(ml: seq<Byte>, mv: seq<Byte>, ack: Byte): seq<Byte> {
    [0x00, 0x17, 0x00] + ml + mv + [0x00, 0x15, 0x00, 0x01, ack]
  }

  function Tail(hl: seq<Byte>, hv: seq<Byte>, ml: seq<Byte>, mv: seq<Byte>, ack: Byte): seq<Byte> {
    [0x00, 0x16, 0x00] + hl + hv + MessageAndAck(ml, mv, ack)
  }

  /** The first two elements have fixed lengths and always read back. */
  lemma ReadFixedElements(aligned: bool, id: Byte, ranFunc: Byte, tail: seq<Byte>)
    ensures ReadBody(aligned, [0x00, 0x00, 0x05]
        + ([0x00, 0x1d, 0x00, 0x05, 0x00, 0x00, id, 0x00, 0x00] + ([0x00, 0x05, 0x00, 0x02, 0x00, ranFunc] + tail)))
      == ReadControlElements(aligned, [0x00, 0x00, id, 0x00, 0x00], [0x00, ranFunc], tail)
  {
    var s2: seq<Byte> := [0x00, 0x05, 0x00, 0x02, 0x00, ranFunc] + tail;
    var s1: seq<Byte> := [0x00, 0x1d, 0x00, 0x05, 0x00, 0x00, id, 0x00, 0x00] + s2;
    var s: seq<Byte> := [0x00, 0x00, 0x05] + s1;
    ReadRequestId(aligned, id, s2);
    ReadRanFunc(aligned, ranFunc, tail);
    assert s[..3] == [0x00, 0x00, 0x05] && s[3..] == s1;
  }

  lemma ReadRequestId(aligned: bool, id: Byte, rest: seq<Byte>)
    ensures ReadElement(aligned, 0x1d, [0x00, 0x1d, 0x00, 0x05, 0x00, 0x00, id, 0x00, 0x00] + rest)
      == Some(Cut([0x00, 0x00, id, 0x00, 0x00], rest))
  {
    ReadCodedElement(aligned, 0x1d, [0x05], [0x00, 0x00, id, 0x00, 0x00], rest);
    assert [0x00, 0x1d, 0x00, 0x05, 0x00, 0x00, id, 0x00, 0x00] + rest
      == [0x00, 0x1d, 0x00] + [0x05] + [0x00, 0x00, id, 0x00, 0x00] + rest;
  }

  lemma ReadRanFunc(aligned: bool, ranFunc: Byte, rest: seq<Byte>)
    ensures ReadElement(aligned, 0x05, [0x00, 0x05, 0x00, 0x02, 0x00, ranFunc] + rest) == Some(Cut([0x00, ranFunc], rest))
  {
    ReadCodedElement(aligned, 0x05, [0x02], [0x00, ranFunc], rest);
    assert [0x00, 0x05, 0x00, 0x02, 0x00, ranFunc] + rest == [0x00, 0x05, 0x00] + [0x02] + [0x00, ranFunc] + rest;
  }

  /** Right lengths everywhere: the three control elements read back. */
  lemma ReadControlBack(aligned: bool, requestId: seq<Byte>, ranFunc: seq<Byte>,
                        hl: seq<Byte>, hi: seq<Byte>, header: seq<Byte>,
                        ml: seq<Byte>, mi: seq<Byte>, msg: seq<Byte>, ack: Byte)
    requires Codes(aligned, hl, |hi| + |header|) && Codes(aligned, hi, |header|)
    requires Codes(aligned, ml, |mi| + |msg|) && Codes(aligned, mi, |msg|)
    ensures ReadControlElements(aligned, requestId, ranFunc, Tail(hl, hi + header, ml, mi + msg, ack))
      == Some(Control(requestId, ranFunc, header, msg, [ack]))
  {
    var last: seq<Byte> := [0x00, 0x15, 0x00, 0x01, ack];
    ReadCodedString(aligned, 0x16, hl, hi, header, MessageAndAck(ml, mi + msg, ack));
    ReadCodedString(aligned, 0x17, ml, mi, msg, last);
    ReadAck(aligned, ack);
  }

  lemma ReadAck(aligned: bool, ack: Byte)
    ensures ReadElement(aligned, 0x15, [0x00, 0x15, 0x00, 0x01, ack]) == Some(Cut([ack], []))
  {
    ReadCodedElement(aligned, 0x15, [0x01], [ack], []);
    assert [0x00, 0x15, 0x00, 0x01, ack] == [0x00, 0x15, 0x00] + [0x01] + [ack] + [];
  }

  // -------------------------------------------------------------- the frames

  lemma OctetsConcat(a: seq<nat>, b: seq<nat>)
    ensures AllOctets(a + b) <==> AllOctets(a) && AllOctets(b)
  {
    if AllOctets(a + b) {
      forall i | 0 <= i < |a| ensures a[i] < 256 { assert (a + b)[i] < 256; }
      forall i | 0 <= i < |b| ensures b[i] < 256 { assert (a + b)[|a| + i] < 256; }
    }
  }

  lemma OctetsParts(start: seq<nat>, l: seq<nat>, v: seq<nat>, rest: seq<nat>)
    requires AllOctets(start)
    ensures AllOctets(start + l + v + rest) <==> AllOctets(l) && AllOctets(v) && AllOctets(rest)
  {
    OctetsConcat(start, l);
    OctetsConcat(start + l, v);
    OctetsConcat(start + l + v, rest);
  }

  /** When a frame with given length fields can be built at all. */
  lemma FrameFits(total: seq<nat>, id: nat, ranFunc: nat, hl: seq<nat>, hv: seq<nat>, ml: seq<nat>, mv: seq<nat>, ack: nat)
    ensures AllOctets([0x00, 0x04, 0x00] + (total + Body(id, ranFunc, hl, hv, ml, mv, ack))) <==>
      && AllOctets(total) && id < 256 && ranFunc < 256 && ack < 4
      && AllOctets(hl) && AllOctets(hv) && AllOctets(ml) && AllOctets(mv)
  {
    var last: seq<nat> := [0x00, 0x15, 0x00, 0x01, 64 * ack];
    var s3: seq<nat> := [0x00, 0x17, 0x00] + ml + mv + last;
    var s2: seq<nat> := [0x00, 0x16, 0x00] + hl + hv + s3;
    var f: seq<nat> := [0x00, 0x05, 0x00, 0x02, 0x00, ranFunc];
    var r: seq<nat> := [0x00, 0x1d, 0x00, 0x05, 0x00, 0x00, id, 0x00, 0x00];
    OctetsParts([0x00, 0x17, 0x00], ml, mv, last);
    OctetsParts([0x00, 0x16, 0x00], hl, hv, s3);
    OctetsConcat(f, s2);
    OctetsConcat(r, f + s2);
    OctetsConcat([0x00, 0x00, 0x05], r + (f + s2));
    OctetsConcat(total, Body(id, ranFunc, hl, hv, ml, mv, ack));
    OctetsConcat([0x00, 0x04, 0x00], total + Body(id, ranFunc, hl, hv, ml, mv, ack));
    LastOctets(id, ranFunc, 64 * ack);
  }

  lemma LastOctets(id: nat, ranFunc: nat, ack: nat)
    ensures AllOctets([0x00, 0x15, 0x00, 0x01, ack]) <==> ack < 256
    ensures AllOctets([0x00, 0x05, 0x00, 0x02, 0x00, ranFunc]) <==> ranFunc < 256
    ensures AllOctets([0x00, 0x1d, 0x00, 0x05, 0x00, 0x00, id, 0x00, 0x00]) <==> id < 256
  {
    if AllOctets([0x00, 0x15, 0x00, 0x01, ack]) { assert [0x00, 0x15, 0x00, 0x01, ack][4] < 256; }
    if AllOctets([0x00, 0x05, 0x00, 0x02, 0x00, ranFunc]) { assert [0x00, 0x05, 0x00, 0x02, 0x00, ranFunc][5] < 256; }
    if AllOctets([0x00, 0x1d, 0x00, 0x05, 0x00, 0x00, id, 0x00, 0x00]) {
      assert [0x00, 0x1d, 0x00, 0x05, 0x00, 0x00, id, 0x00, 0x00][6] < 256;
    }
  }

  lemma BodyLength(id: nat, ranFunc: nat, hl: seq<nat>, hv: seq<nat>, ml: seq<nat>, mv: seq<nat>, ack: nat)
    ensures |Body(id, ranFunc, hl, hv, ml, mv, ack)| == 29 + |hl| + |hv| + |ml| + |mv|
  {
  }

  /** What a request is meant to carry. */
  function Meant(id: Byte, ranFunc: Byte, header: seq<Byte>, msg: seq<Byte>, ack: Byte): Control {
    Control([0x00, 0x00, id, 0x00, 0x00], [0x00, ranFunc], header, msg, [ack])
  }

  lemma ReadCodedEnvelope(aligned: bool, total: seq<Byte>, body: seq<Byte>)
    requires Codes(aligned, total, |body|)
    ensures ReadEnvelope(aligned, [0x00, 0x04, 0x00] + (total + body)) == Some(body)
  {
    var s: seq<Byte> := [0x00, 0x04, 0x00] + (total + body);
    assert s[..3] == [0x00, 0x04, 0x00] && s[3..] == total + body;
    ReadCodedWhole(aligned, total, body);
  }

  lemma ReadBuiltBody(aligned: bool, id: Byte, ranFunc: Byte, hl: seq<Byte>, hv: seq<Byte>,
                      ml: seq<Byte>, mv: seq<Byte>, ack: nat, body: seq<Byte>)
    requires ack < 4 && body == Body(id, ranFunc, hl, hv, ml, mv, ack)
    ensures ReadBody(aligned, body)
      == ReadControlElements(aligned, [0x00, 0x00, id, 0x00, 0x00], [0x00, ranFunc], Tail(hl, hv, ml, mv, 64 * ack))
  {
    ReadFixedElements(aligned, id, ranFunc, Tail(hl, hv, ml, mv, 64 * ack));
  }

  /** A frame's total length, read right, leaves the control elements to read. */
  lemma ReadFrame(aligned: bool, total: seq<Byte>, id: Byte, ranFunc: Byte, hl: seq<Byte>, hv: seq<Byte>,
                  ml: seq<Byte>, mv: seq<Byte>, ack: nat, body: seq<Byte>)
    requires ack < 4 && body == Body(id, ranFunc, hl, hv, ml, mv, ack) && Codes(aligned, total, |body|)
    ensures ReadRequest(aligned, [0x00, 0x04, 0x00] + (total + body))
      == ReadControlElements(aligned, [0x00, 0x00, id, 0x00, 0x00], [0x00, ranFunc], Tail(hl, hv, ml, mv, 64 * ack))
  {
    ReadCodedEnvelope(aligned, total, body);
    ReadBuiltBody(aligned, id, ranFunc, hl, hv, ml, mv, ack, body);
  }

  // ------------------------------------------------------------- RC requests

  /** When the RC builder succeeds. */
  lemma RcBuilds(id: nat, ranFunc: nat, header: seq<Byte>, msg: seq<Byte>, ack: nat)
    ensures RcRequest(id, ranFunc, header, msg, ack).Some? <==>
      33 + |header| + |msg| < 256 && id < 256 && ranFunc < 256 && ack < 4
  {
    var h, m := |header|, |msg|;
    FrameFits([33 + h + m], id, ranFunc, [h + 1], [h] + header, [m + 1], [m] + msg, ack);
    OctetsConcat([h], header);
    OctetsConcat([m], msg);
    if AllOctets([33 + h + m]) { assert [33 + h + m][0] < 256; }
  }

  /** Every length octet of an RC request is the number of octets it covers: the reader recovers everything. */
  lemma RcRoundTrip(id: Byte, ranFunc: Byte, header: seq<Byte>, msg: seq<Byte>, ack: nat)
    requires RcRequest(id, ranFunc, header, msg, ack).Some?
    ensures ack < 4
    ensures ReadRequest(false, RcRequest(id, ranFunc, header, msg, ack).value)
      == Some(Meant(id, ranFunc, header, msg, 64 * ack))
  {
    var body := RcPieces(id, ranFunc, header, msg, ack);
    RcReads(false, id, ranFunc, header, msg, ack, body);
  }

  /** The built octets, as octets. */
  lemma RcPieces(id: Byte, ranFunc: Byte, header: seq<Byte>, msg: seq<Byte>, ack: nat) returns (body: seq<Byte>)
    requires RcRequest(id, ranFunc, header, msg, ack).Some?
    ensures ack < 4 && 33 + |header| + |msg| < 256
    ensures body == Body(id, ranFunc, [|header| + 1], [|header|] + header, [|msg| + 1], [|msg|] + msg, ack)
    ensures RcRequest(id, ranFunc, header, msg, ack).value == [0x00, 0x04, 0x00] + ([33 + |header| + |msg|] + body)
    ensures |body| == 33 + |header| + |msg| && body[0] == 0
  {
    var h, m := |header|, |msg|;
    RcBuilds(id, ranFunc, header, msg, ack);
    var xs := Body(id, ranFunc, [h + 1], [h] + header, [m + 1], [m] + msg, ack);
    BodyLength(id, ranFunc, [h + 1], [h] + header, [m + 1], [m] + msg, ack);
    OctetsConcat([33 + h + m], xs);
    OctetsConcat([0x00, 0x04, 0x00], [33 + h + m] + xs);
    body := Bytes(xs).value;
  }

  lemma RcReads(aligned: bool, id: Byte, ranFunc: Byte, header: seq<Byte>, msg: seq<Byte>, ack: nat, body: seq<Byte>)
    requires ack < 4 && 33 + |header| + |msg| == |body| < if aligned then 128 else 256
    requires body == Body(id, ranFunc, [|header| + 1], [|header|] + header, [|msg| + 1], [|msg|] + msg, ack)
    ensures ReadRequest(aligned, [0x00, 0x04, 0x00] + ([33 + |header| + |msg|] + body))
      == Some(Meant(id, ranFunc, header, msg, 64 * ack))
  {
    var hl: seq<Byte>, hi: seq<Byte>, ml: seq<Byte>, mi: seq<Byte> := [|header| + 1], [|header|], [|msg| + 1], [|msg|];
    ReadFrame(aligned, [33 + |header| + |msg|], id, ranFunc, hl, hi + header, ml, mi + msg, ack, body);
    ReadControlBack(aligned, [0x00, 0x00, id, 0x00, 0x00], [0x00, ranFunc], hl, hi, header, ml, mi, msg, 64 * ack);
  }

  /** A decoder that follows X.691 recovers an RC request exactly when its total is below 128. */
  lemma RcAligned(id: Byte, ranFunc: Byte, header: seq<Byte>, msg: seq<Byte>, ack: nat)
    requires RcRequest(id, ranFunc, header, msg, ack).Some?
    ensures ack < 4
    ensures var p := RcRequest(id, ranFunc, header, msg, ack).value;
      ReadRequest(true, p) == Some(Meant(id, ranFunc, header, msg, 64 * ack)) <==> 33 + |header| + |msg| < 128
  {
    var body := RcPieces(id, ranFunc, header, msg, ack);
    if |body| < 128 {
      RcReads(true, id, ranFunc, header, msg, ack, body);
    } else {
      ShortTotalMisread(33 + |header| + |msg|, body);
    }
  }

  /** The total of a request that is read covers exactly what follows it. */
  lemma TotalCovers(rest: seq<Byte>)
    requires ReadEnvelope(true, [0x00, 0x04, 0x00] + rest).Some?
    ensures ReadLength(true, rest).Some? && ReadLength(true, rest).value.value == |ReadLength(true, rest).value.rest|
  {
    var p: seq<Byte> := [0x00, 0x04, 0x00] + rest;
    assert p[3..] == rest;
  }

  lemma ShortTotalIs(total: Byte, body: seq<Byte>)
    requires 128 <= total && |body| >= 2 && body[0] == 0
    ensures var l := ReadLength(true, [total] + body);
      l.Some? ==> l.value.value == LongLength(total, 0) && |l.value.rest| == |body| - 1
  {
    var s: seq<Byte> := [total] + body;
    assert s[0] == total && s[1] == 0 && |s[2..]| == |body| - 1;
  }

  /** A one-octet total from 128 up is taken for half of a two-octet length, which never fits. */
  lemma ShortTotalMisread(total: Byte, body: seq<Byte>)
    requires 128 <= total && |body| >= 2 && body[0] == 0 && total - 2 <= |body| <= total
    ensures ReadEnvelope(true, [0x00, 0x04, 0x00] + ([total] + body)) == None
  {
    if ReadEnvelope(true, [0x00, 0x04, 0x00] + ([total] + body)).Some? {
      TotalCovers([total] + body);
      ShortTotalIs(total, body);
      assert false;
    }
  }

  // ------------------------------------------------------------ CCC requests

  /** The length field of a number that has one. */
  function Field(n: nat): (l: seq<Byte>)
    requires n < 65536
    ensures EncodeLength(n) == Some(l)
    ensures |l| == if n < 256 then 1 else 2
  {
    EncodeLength(n).value
  }

  lemma ShortField(n: nat)
    requires n < 128
    ensures Codes(true, Field(n), n)
  {
  }

  /** A two-octet field stands for the low 14 bits. */
  lemma WrappedField(n: nat)
    requires 256 <= n < 65536
    ensures Codes(true, Field(n), n % 16384)
  {
  }

  lemma LongField(n: nat)
    requires 256 <= n <= 16383
    ensures Codes(true, Field(n), n)
  {
  }

  /** The number that a length field stands for: the octet, or the low 14 bits of two. */
  function Denotes(l: seq<Byte>): int
    requires |l| == 1 || |l| == 2
  {
    if |l| == 1 then l[0] else LongLength(l[0], l[1])
  }

  /** When the CCC builder succeeds, and what it builds. */
  lemma CccBuilds(id: nat, ranFunc: nat, header: seq<Byte>, msg: seq<Byte>, ack: nat)
    ensures CccRequest(id, ranFunc, header, msg, ack).Some? <==>
      35 + |header| + |msg| < 65536 && id < 256 && ranFunc < 256 && ack < 4
    ensures CccRequest(id, ranFunc, header, msg, ack).Some? ==>
      CccRequest(id, ranFunc, header, msg, ack).value
        == [0x00, 0x04, 0x00] + (Field(35 + |header| + |msg|) + CccBody(id, ranFunc, header, msg, ack))
  {
    var h, m := |header|, |msg|;
    if 35 + h + m < 65536 {
      FrameFits(Field(35 + h + m), id, ranFunc, Field(h + 1), Field(h) + header, Field(m + 2), Field(m) + msg, ack);
      OctetsConcat(Field(h), header);
      OctetsConcat(Field(m), msg);
    }
  }

  function CccBody(id: nat, ranFunc: nat, header: seq<Byte>, msg: seq<Byte>, ack: nat): seq<nat>
    requires 35 + |header| + |msg| < 65536
  {
    Body(id, ranFunc, Field(|header| + 1), Field(|header|) + header, Field(|msg| + 2), Field(|msg|) + msg, ack)
  }

  /** Each of the five length fields stands for the number of octets it covers. */
  ghost predicate LengthsRight(id: nat, ranFunc: nat, header: seq<Byte>, msg: seq<Byte>, ack: nat)
    requires 35 + |header| + |msg| < 65536
  {
    var h, m := |header|, |msg|;
    && Denotes(Field(35 + h + m)) == |CccBody(id, ranFunc, header, msg, ack)|
    && Denotes(Field(h + 1)) == |Field(h) + header| && Denotes(Field(h)) == h
    && Denotes(Field(m + 2)) == |Field(m) + msg| && Denotes(Field(m)) == m
  }

  /** A field stands for a number near its own exactly when that is its own and fits 14 bits. */
  lemma FieldRight(n: nat, k: nat)
    requires n < 65536 && n - 2 <= k <= n + 2
    ensures Denotes(Field(n)) == k <==> k == n <= 16383
  {
    if n >= 256 { WrappedField(n); }
  }

  /** The lengths are right exactly for short headers, long messages and a total of at most 14 bits. */
  lemma CccLengths(id: nat, ranFunc: nat, header: seq<Byte>, msg: seq<Byte>, ack: nat)
    requires CccRequest(id, ranFunc, header, msg, ack).Some?
    ensures 35 + |header| + |msg| < 65536
    ensures LengthsRight(id, ranFunc, header, msg, ack) <==>
      |header| <= 254 && |msg| >= 256 && 35 + |header| + |msg| <= 16383
  {
    var h, m := |header|, |msg|;
    CccBuilds(id, ranFunc, header, msg, ack);
    BodyLength(id, ranFunc, Field(h + 1), Field(h) + header, Field(m + 2), Field(m) + msg, ack);
    FieldRight(35 + h + m, |CccBody(id, ranFunc, header, msg, ack)|);
    FieldRight(h + 1, |Field(h) + header|);
    FieldRight(h, h);
    FieldRight(m + 2, |Field(m) + msg|);
    FieldRight(m, m);
  }

  /** The built octets, as octets. */
  lemma CccPieces(id: Byte, ranFunc: Byte, header: seq<Byte>, msg: seq<Byte>, ack: nat) returns (body: seq<Byte>)
    requires CccRequest(id, ranFunc, header, msg, ack).Some?
    ensures ack < 4 && 35 + |header| + |msg| < 65536 && body == CccBody(id, ranFunc, header, msg, ack)
    ensures CccRequest(id, ranFunc, header, msg, ack).value == [0x00, 0x04, 0x00] + (Field(35 + |header| + |msg|) + body)
    ensures |body| == 29 + |Field(|header| + 1)| + |Field(|header|)| + |header| + |Field(|msg| + 2)| + |Field(|msg|)| + |msg|
    ensures body[0] == 0
  {
    var h, m := |header|, |msg|;
    CccBuilds(id, ranFunc, header, msg, ack);
    var xs := CccBody(id, ranFunc, header, msg, ack);
    BodyLength(id, ranFunc, Field(h + 1), Field(h) + header, Field(m + 2), Field(m) + msg, ack);
    OctetsConcat(Field(35 + h + m), xs);
    OctetsConcat([0x00, 0x04, 0x00], Field(35 + h + m) + xs);
    body := Bytes(xs).value;
  }

  /** What is to be read once the total is. */
  function CccTail(header: seq<Byte>, msg: seq<Byte>, ack: Byte): seq<Byte>
    requires 35 + |header| + |msg| < 65536
  {
    Tail(Field(|header| + 1), Field(|header|) + header, Field(|msg| + 2), Field(|msg|) + msg, ack)
  }

  /** With a right total, what is read is what the control elements give. */
  lemma CccFrame(id: Byte, ranFunc: Byte, header: seq<Byte>, msg: seq<Byte>, ack: nat, body: seq<Byte>)
    requires 256 <= |body| == 35 + |header| + |msg| <= 16383 && ack < 4
    requires body == CccBody(id, ranFunc, header, msg, ack)
    ensures ReadRequest(true, [0x00, 0x04, 0x00] + (Field(35 + |header| + |msg|) + body))
      == ReadControlElements(true, [0x00, 0x00, id, 0x00, 0x00], [0x00, ranFunc], CccTail(header, msg, 64 * ack))
  {
    var h, m, total := |header|, |msg|, Field(35 + |header| + |msg|);
    LongField(35 + h + m);
    var hl, hv, ml, mv := Field(h + 1), Field(h) + header, Field(m + 2), Field(m) + msg;
    ReadFrame(true, total, id, ranFunc, hl, hv, ml, mv, ack, body);
  }

  /** For headers of at most 126 octets the X.691 reader recovers everything. */
  lemma CccReads(requestId: seq<Byte>, ranFunc: seq<Byte>, header: seq<Byte>, msg: seq<Byte>, ack: Byte)
    requires |header| <= 126 && |msg| >= 256 && 35 + |header| + |msg| <= 16383
    ensures ReadControlElements(true, requestId, ranFunc, CccTail(header, msg, ack))
      == Some(Control(requestId, ranFunc, header, msg, [ack]))
  {
    var hl, hi, ml, mi := Field(|header| + 1), Field(|header|), Field(|msg| + 2), Field(|msg|);
    ShortField(|header| + 1);
    ShortField(|header|);
    LongField(|msg| + 2);
    LongField(|msg|);
    ReadControlBack(true, requestId, ranFunc, hl, hi, header, ml, mi, msg, ack);
  }

  /** A CCC request that is read at all has a right total of two octets. */
  lemma CccTotal(total: nat, body: seq<Byte>)
    requires total < 65536 && |body| >= 2 && body[0] == 0
    requires if total < 256 then |body| == total - 2 else total - 2 <= |body| <= total + 2
    requires ReadEnvelope(true, [0x00, 0x04, 0x00] + (Field(total) + body)).Some?
    ensures 256 <= total == |body| <= 16383
  {
    if 128 <= total < 256 {
      assert Field(total) == [total];
      ShortTotalMisread(total, body);
    } else {
      TotalCovers(Field(total) + body);
      if total < 128 { ShortField(total); } else { WrappedField(total); }
      ReadCoded(true, Field(total), if total < 128 then total else total % 16384, body);
    }
  }

  // ------------------------------------------------- headers that are misread

  lemma ReadHeaderElement(l: seq<Byte>, v: seq<Byte>)
    ensures ReadElement(true, 0x16, [0x00, 0x16, 0x00] + l + v) == ReadOctets(true, l + v)
  {
    var s: seq<Byte> := [0x00, 0x16, 0x00] + l + v;
    assert s[..3] == [0x00, 0x16, 0x00] && s[3..] == l + v;
  }

  /** Octets with a length in front are one or two shorter than the whole. */
  lemma WholeSize(s: seq<Byte>)
    requires ReadWhole(true, s).Some?
    ensures |s| - 2 <= |ReadWhole(true, s).value| <= |s| - 1
  {
  }

  /** 127 to 254 octets: the outer length octet swallows the inner one. */
  lemma MediumHeaderMisread(header: seq<Byte>, rest: seq<Byte>)
    requires 127 <= |header| <= 254
    ensures var s := Field(|header| + 1) + (Field(|header|) + header + rest);
      ReadOctets(true, s).Some? ==> ReadWhole(true, ReadOctets(true, s).value.value) != Some(header)
  {
    var h := |header|;
    var s := Field(h + 1) + (Field(h) + header + rest);
    assert s[0] == h + 1 && s[1] == h;
    if ReadOctets(true, s).Some? {
      var v := ReadOctets(true, s).value.value;
      assert |v| == LongLength(h + 1, h);
      if ReadWhole(true, v).Some? { WholeSize(v); }
    }
  }

  /** 255 octets: the inner length octet announces a fragment. */
  lemma FragmentHeaderMisread(header: seq<Byte>, rest: seq<Byte>)
    requires |header| == 255
    ensures var s := Field(256) + (Field(255) + header + rest);
      ReadOctets(true, s).Some? ==> ReadWhole(true, ReadOctets(true, s).value.value) == None
  {
    var v := Field(255) + header;
    LongField(256);
    ReadCodedOctets(true, Field(256), v, rest);
    assert v[0] == 255;
  }

  lemma ReadTooShort(l: seq<Byte>, v: seq<Byte>, n: nat)
    requires Codes(true, l, n) && |v| < n
    ensures ReadWhole(true, l + v) == None
  {
    ReadCoded(true, l, n, v);
  }

  lemma LongHeaderCut(header: seq<Byte>, rest: seq<Byte>, i: seq<Byte>, l: seq<Byte>)
    requires header != [] && |i| == 2 && Codes(true, l, |header| + 1)
    ensures ReadOctets(true, l + (i + header + rest)) == Some(Cut(i + header[..|header| - 1], header[|header| - 1..] + rest))
  {
    var h := |header|;
    assert i + header + rest == i + header[..h - 1] + (header[h - 1..] + rest);
    ReadCodedOctets(true, l, i + header[..h - 1], header[h - 1..] + rest);
  }

  /** From 256 octets on: the outer length is one short of the two inner octets and the header. */
  lemma LongHeaderMisread(header: seq<Byte>, rest: seq<Byte>)
    requires 256 <= |header| < 16383
    ensures var s := Field(|header| + 1) + (Field(|header|) + header + rest);
      ReadOctets(true, s).Some? ==> ReadWhole(true, ReadOctets(true, s).value.value) == None
  {
    var h := |header|;
    LongField(h);
    LongField(h + 1);
    LongHeaderCut(header, rest, Field(h), Field(h + 1));
    ReadTooShort(Field(h), header[..h - 1], h);
  }

  /** No header of 127 octets or more is read back. */
  lemma HeaderMisread(header: seq<Byte>, rest: seq<Byte>)
    requires 127 <= |header| < 16383
    ensures var r := ReadString(true, 0x16, [0x00, 0x16, 0x00] + Field(|header| + 1) + (Field(|header|) + header) + rest);
      r.Some? ==> r.value.value != header
  {
    var h := |header|;
    var v := Field(h) + header + rest;
    ReadHeaderElement(Field(h + 1), v);
    assert [0x00, 0x16, 0x00] + Field(h + 1) + (Field(h) + header) + rest == [0x00, 0x16, 0x00] + Field(h + 1) + v;
    if h <= 254 { MediumHeaderMisread(header, rest); }
    else if h == 255 { FragmentHeaderMisread(header, rest); }
    else { LongHeaderMisread(header, rest); }
  }

  lemma LongHeadersLost(requestId: seq<Byte>, ranFunc: seq<Byte>, header: seq<Byte>, msg: seq<Byte>, ack: Byte)
    requires 127 <= |header| < 16383 && 35 + |header| + |msg| < 65536
    ensures ReadControlElements(true, requestId, ranFunc, CccTail(header, msg, ack))
      != Some(Control(requestId, ranFunc, header, msg, [ack]))
  {
    HeaderMisread(header, MessageAndAck(Field(|msg| + 2), Field(|msg|) + msg, ack));
  }

  /**
   A decoder that follows X.691 recovers a CCC request exactly when its header has
   at most 126 octets, its message at least 256, and its total fits 14 bits.
   */
  lemma CccAligned(id: Byte, ranFunc: Byte, header: seq<Byte>, msg: seq<Byte>, ack: nat)
    requires CccRequest(id, ranFunc, header, msg, ack).Some?
    ensures ack < 4
    ensures var p := CccRequest(id, ranFunc, header, msg, ack).value;
      ReadRequest(true, p) == Some(Meant(id, ranFunc, header, msg, 64 * ack)) <==>
      (|header| <= 126 && |msg| >= 256 && 35 + |header| + |msg| <= 16383)
  {
    var h, m := |header|, |msg|;
    var body := CccPieces(id, ranFunc, header, msg, ack);
    var p := CccRequest(id, ranFunc, header, msg, ack).value;
    if ReadEnvelope(true, p).Some? || (h <= 126 && m >= 256 && 35 + h + m <= 16383) {
      if ReadEnvelope(true, p).Some? { CccTotal(35 + h + m, body); }
      CccFrame(id, ranFunc, header, msg, ack, body);
      if h >= 127 {
        LongHeadersLost([0x00, 0x00, id, 0x00, 0x00], [0x00, ranFunc], header, msg, 64 * ack);
      } else {
        CccReads([0x00, 0x00, id, 0x00, 0x00], [0x00, ranFunc], header, msg, 64 * ack);
      }
    }
  }

  // ----------------------------------------------------------------- modules

  /** The state of an RC or CCC module that its requests depend on. */
  class ControlModule {
    var requestorId: int
    var ranFuncId: nat

    constructor (ranFuncId: nat)
      ensures requestorId == 0 && this.ranFuncId == ranFuncId
    {
      requestorId, this.ranFuncId := 0, ranFuncId;
    }

    method GetRequestorId() returns (id: int)
      requires 0 <= requestorId < 255
      modifies this`requestorId
      ensures 0 <= id < 255 && id == requestorId == IdAfter(old(requestorId), 1)
    {
      requestorId := requestorId + 1;
      requestorId := requestorId % 255;
      assert IdAfter(old(requestorId), 0) == old(requestorId);
      return requestorId;
    }

    /** The RC module's builder. A request that cannot be built still uses up an id. */
    method BuildRc(header: seq<Byte>, msg: seq<Byte>, ack: nat) returns (payload: Option<seq<Byte>>)
      requires 0 <= requestorId < 255
      modifies this`requestorId
      ensures 0 <= requestorId < 255 && requestorId == IdAfter(old(requestorId), 1)
      ensures payload.Some? <==> 33 + |header| + |msg| < 256 && ranFuncId < 256 && ack < 4
      ensures payload.Some? ==> ReadRequest(false, payload.value) == Some(Meant(requestorId, ranFuncId, header, msg, 64 * ack))
    {
      var id := GetRequestorId();
      payload := RcRequest(id, ranFuncId, header, msg, ack);
      RcBuilds(id, ranFuncId, header, msg, ack);
      if payload.Some? { RcRoundTrip(id, ranFuncId, header, msg, ack); }
    }

    /** The CCC module's builder. */
    method BuildCcc(header: seq<Byte>, msg: seq<Byte>, ack: nat) returns (payload: Option<seq<Byte>>)
      requires 0 <= requestorId < 255
      modifies this`requestorId
      ensures 0 <= requestorId < 255 && requestorId == IdAfter(old(requestorId), 1)
      ensures payload.Some? <==> 35 + |header| + |msg| < 65536 && ranFuncId < 256 && ack < 4
      ensures payload.Some? ==>
        (ReadRequest(true, payload.value) == Some(Meant(requestorId, ranFuncId, header, msg, 64 * ack)) <==>
         (|header| <= 126 && |msg| >= 256 && 35 + |header| + |msg| <= 16383))
    {
      var id := GetRequestorId();
      payload := CccRequest(id, ranFuncId, header, msg, ack);
      CccBuilds(id, ranFuncId, header, msg, ack);
      if payload.Some? { CccAligned(id, ranFuncId, header, msg, ack); }
    }
  }
}

/** The network packet decoder of the Python client: parts with a type and a length, decoded one after the other,
    and their interpretation with fields that stay in force until they are set again. */
module Network {
  import opened Common

  const TYPE_HOST := 0x0000
  const TYPE_TIME := 0x0001
  const TYPE_PLUGIN := 0x0002
  const TYPE_PLUGIN_INSTANCE := 0x0003
  const TYPE_TYPE := 0x0004
  const TYPE_TYPE_INSTANCE := 0x0005
  const TYPE_VALUES := 0x0006
  const TYPE_INTERVAL := 0x0007
  const TYPE_TIME_HR := 0x0008
  const TYPE_INTERVAL_HR := 0x0009
  const TYPE_MESSAGE := 0x0100
  const TYPE_SEVERITY := 0x0101

  const NUMBER_KINDS := {TYPE_TIME, TYPE_TIME_HR, TYPE_INTERVAL, TYPE_INTERVAL_HR, TYPE_SEVERITY}
  const TEXT_KINDS := {TYPE_HOST, TYPE_PLUGIN, TYPE_PLUGIN_INSTANCE, TYPE_TYPE, TYPE_TYPE_INSTANCE, TYPE_MESSAGE}

  /** A counter (0), derive (2) or absolute (3) value, or the eight bytes of a gauge (1). */
  datatype Value = Integer(ds: nat, n: nat) | Gauge(bits: seq<byte>)

  datatype Part = Number(kind: nat, n: nat) | Text(kind: nat, bytes: seq<byte>) | Values(values: seq<Value>)

  // ---------------------------------------------------------------------------- big endian

  function Pow256(k: nat): nat
  {
    if k == 0 then 1 else 256 * Pow256(k - 1)
  }

  function Big(n: nat, k: nat): (r: seq<byte>)
    ensures |r| == k
  {
    if k == 0 then [] else Big(n / 256, k - 1) + [n % 256]
  }

  function Read(bytes: seq<byte>): nat
  {
    if bytes == [] then 0 else 256 * Read(bytes[..|bytes| - 1]) + bytes[|bytes| - 1]
  }

  lemma {:induction false} ReadBig(n: nat, k: nat)
    requires n < Pow256(k)
    ensures Read(Big(n, k)) == n
  {
    if k > 0 {
      ReadBig(n / 256, k - 1);
      assert Big(n, k)[..k - 1] == Big(n / 256, k - 1);
    }
  }

  // -------------------------------------------------------------------------------- encoding

  function DsType(v: Value): byte
    requires WellFormedValue(v)
  {
    if v.Gauge? then 1 else v.ds
  }

  predicate WellFormedValue(v: Value)
  {
    match v
    case Integer(ds, n) => ds in {0, 2, 3} && n < Pow256(8)
    case Gauge(bits) => |bits| == 8
  }

  /** What the format can carry: known kinds, 64-bit numbers and parts of less than 64 KiB. */
  predicate WellFormed(p: Part)
  {
    match p
    case Number(kind, n) => kind in NUMBER_KINDS && n < Pow256(8)
    case Text(kind, bytes) => kind in TEXT_KINDS && |bytes| + 5 < Pow256(2)
    case Values(vs) => (forall i :: 0 <= i < |vs| ==> WellFormedValue(vs[i])) && 9 * |vs| + 6 < Pow256(2)
  }

  function Header(kind: nat, length: nat): seq<byte>
  {
    Big(kind, 2) + Big(length, 2)
  }

  function DsTypes(vs: seq<Value>): (r: seq<byte>)
    requires forall i :: 0 <= i < |vs| ==> WellFormedValue(vs[i])
    ensures |r| == |vs|
  {
    seq(|vs|, i requires 0 <= i < |vs| => DsType(vs[i]))
  }

  function Payload(v: Value): (r: seq<byte>)
    requires WellFormedValue(v)
    ensures |r| == 8
  {
    if v.Gauge? then v.bits else Big(v.n, 8)
  }

  function Payloads(vs: seq<Value>): (r: seq<byte>)
    requires forall i :: 0 <= i < |vs| ==> WellFormedValue(vs[i])
    ensures |r| == 8 * |vs|
  {
    if vs == [] then [] else Payloads(vs[..|vs| - 1]) + Payload(vs[|vs| - 1])
  }

  function Encode(p: Part): seq<byte>
    requires WellFormed(p)
  {
    match p
    case Number(kind, n) => Header(kind, 12) + Big(n, 8)
    case Text(kind, bytes) => Header(kind, |bytes| + 5) + bytes + [0]
    case Values(vs) => Header(TYPE_VALUES, 9 * |vs| + 6) + Big(|vs|, 2) + DsTypes(vs) + Payloads(vs)
  }

  function EncodeAll(parts: seq<Part>): seq<byte>
    requires forall i :: 0 <= i < |parts| ==> WellFormed(parts[i])
  {
    if parts == [] then [] else Encode(parts[0]) + EncodeAll(parts[1..])
  }

  /** Eight bytes, most significant first. */
  function Spelled(n: nat): (r: seq<byte>)
    ensures |r| == 8
  {
    [n / 0x100_0000_0000_0000 % 256, n / 0x1_0000_0000_0000 % 256, n / 0x100_0000_0000 % 256, n / 0x1_0000_0000 % 256,
     n / 0x100_0000 % 256, n / 0x1_0000 % 256, n / 0x100 % 256, n % 256]
  }

  lemma {:induction false} TwoBytes(n: nat)
    ensures Big(n, 2) == [n / 256 % 256, n % 256]
  {
    assert Big(n / 256, 1) == Big(n / 256 / 256, 0) + [n / 256 % 256];
  }

  lemma {:induction false} FourBytes(n: nat)
    ensures Big(n, 4) == [n / 0x100_0000 % 256, n / 0x1_0000 % 256, n / 0x100 % 256, n % 256]
  {
    hide Big;
    BigStep(n, 4);
    BigStep(n / 256, 3);
    TwoBytes(n / 256 / 256);
    assert n / 256 / 256 == n / 0x1_0000 && n / 0x1_0000 / 256 == n / 0x100_0000;
  }

  lemma {:induction false} EightBytes(n: nat)
    ensures Big(n, 8) == Spelled(n)
  {
    hide Big;
    var a, b, c := n / 256, n / 0x1_0000, n / 0x100_0000;
    var d := n / 0x1_0000_0000;
    assert a / 256 == b && b / 256 == c && c / 256 == d;
    BigStep(n, 8);
    BigStep(a, 7);
    BigStep(b, 6);
    BigStep(c, 5);
    FourBytes(d);
    assert d / 0x100_0000 == n / 0x100_0000_0000_0000 && d / 0x1_0000 == n / 0x1_0000_0000_0000;
    assert d / 0x100 == n / 0x100_0000_0000;
  }

  lemma {:induction false} BigStep(n: nat, k: nat)
    requires k > 0
    ensures Big(n, k) == Big(n / 256, k - 1) + [n % 256]
  {
  }

  /** The format byte by byte: kind and length in two bytes each, a number in eight, a text with its NUL, and of
      values their count, their types and their eight bytes each. */
  lemma {:induction false} WireFormat(p: Part)
    requires WellFormed(p)
    ensures p.Number? ==> Encode(p) == [p.kind / 256 % 256, p.kind % 256, 0, 12] + Spelled(p.n)
    ensures p.Text? ==> var l := |p.bytes| + 5;
              Encode(p) == [p.kind / 256 % 256, p.kind % 256, l / 256 % 256, l % 256] + p.bytes + [0]
    ensures p.Values? ==> var n, l := |p.values|, 9 * |p.values| + 6;
              && |Encode(p)| == l
              && Encode(p)[..6] == [0, 6, l / 256 % 256, l % 256, n / 256 % 256, n % 256]
              && forall i :: 0 <= i < n ==>
                   && Encode(p)[6 + i] == (if p.values[i].Gauge? then 1 else p.values[i].ds)
                   && Encode(p)[6 + n + 8 * i..6 + n + 8 * i + 8] ==
                      if p.values[i].Gauge? then p.values[i].bits else Spelled(p.values[i].n)
  {
    hide Big, Spelled, Encode, WellFormed;
    match p
    case Number(kind, n) => NumberFormat(kind, n);
    case Text(kind, bytes) => TextFormat(kind, bytes);
    case Values(vs) => ValuesFormat(vs);
  }

  lemma {:induction false} NumberFormat(kind: nat, n: nat)
    requires WellFormed(Number(kind, n))
    ensures Encode(Number(kind, n)) == [kind / 256 % 256, kind % 256, 0, 12] + Spelled(n)
  {
    hide Big, Spelled;
    TwoBytes(kind);
    TwoBytes(12);
    EightBytes(n);
  }

  lemma {:induction false} TextFormat(kind: nat, bytes: seq<byte>)
    requires WellFormed(Text(kind, bytes))
    ensures var l := |bytes| + 5;
            Encode(Text(kind, bytes)) == [kind / 256 % 256, kind % 256, l / 256 % 256, l % 256] + bytes + [0]
  {
    hide Big;
    TwoBytes(kind);
    TwoBytes(|bytes| + 5);
  }

  lemma {:induction false} ValuesFormat(vs: seq<Value>)
    requires WellFormed(Values(vs))
    ensures var n, l, buf := |vs|, 9 * |vs| + 6, Encode(Values(vs));
            && |buf| == l
            && buf[..6] == [0, 6, l / 256 % 256, l % 256, n / 256 % 256, n % 256]
            && forall i :: 0 <= i < n ==>
                 && buf[6 + i] == (if vs[i].Gauge? then 1 else vs[i].ds)
                 && buf[6 + n + 8 * i..6 + n + 8 * i + 8] == if vs[i].Gauge? then vs[i].bits else Spelled(vs[i].n)
  {
    hide Big, Spelled, Payloads, DsTypes, Encode;
    var n, buf := |vs|, Encode(Values(vs));
    EncodedLength(Values(vs));
    ValuesFront(vs);
    assert buf + [] == buf;
    forall i | 0 <= i < n
      ensures buf[6 + i] == if vs[i].Gauge? then 1 else vs[i].ds
      ensures buf[6 + n + 8 * i..6 + n + 8 * i + 8] == if vs[i].Gauge? then vs[i].bits else Spelled(vs[i].n)
    {
      ValueBytes(vs, [], i);
      if vs[i].Integer? {
        EightBytes(vs[i].n);
      }
    }
  }

  lemma {:induction false} ValuesFront(vs: seq<Value>)
    requires WellFormed(Values(vs))
    ensures var n, l := |vs|, 9 * |vs| + 6;
            |Encode(Values(vs))| == l && Encode(Values(vs))[..6] == [0, 6, l / 256 % 256, l % 256, n / 256 % 256, n % 256]
  {
    hide Big, Payloads, DsTypes;
    TwoBytes(TYPE_VALUES);
    TwoBytes(9 * |vs| + 6);
    TwoBytes(|vs|);
  }

  // -------------------------------------------------------------------------------- decoding

  /** Value number `i` of a values part with `n` values. */
  function ValueAt(buf: seq<byte>, n: nat, i: nat): Option<Value>
    requires i < n && 6 + 9 * n <= |buf|
  {
    var off := 6 + n + 8 * i;
    var ds := buf[6 + i];
    if ds == 1 then Some(Gauge(buf[off..off + 8]))
    else if ds == 0 || ds == 2 || ds == 3 then Some(Integer(ds, Read(buf[off..off + 8])))
    else None
  }

  /** The first `k` values; None when a data source type is unknown. */
  function ValuesUpTo(buf: seq<byte>, n: nat, k: nat): Option<seq<Value>>
    requires k <= n && 6 + 9 * n <= |buf|
  {
    if k == 0 then Some([])
    else
      var before, v := ValuesUpTo(buf, n, k - 1), ValueAt(buf, n, k - 1);
      if before.None? || v.None? then None else Some(before.value + [v.value])
  }

  /** `decode_network_values`; None when it raises. */
  function DecodeValues(plen: nat, buf: seq<byte>): Option<Part>
    requires plen <= |buf|
  {
    if |buf| < 6 then None
    else
      var n := Read(buf[4..6]);
      if 9 * n + 6 != plen then None
      else
        var vs := ValuesUpTo(buf, n, n);
        if vs.None? then None else Some(Values(vs.value))
  }

  /** `decode_network_number`: eight bytes, whatever the part length says. */
  function DecodeNumber(kind: nat, buf: seq<byte>): Option<Part>
  {
    if |buf| < 12 then None else Some(Number(kind, Read(buf[4..12])))
  }

  /** `decode_network_string`: a slice; an end of -1 counts from the end of the buffer. */
  function DecodeText(kind: nat, plen: nat, buf: seq<byte>): Part
    requires plen <= |buf|
  {
    var end := if plen == 0 then |buf| - 1 else plen - 1;
    Text(kind, if end <= 4 then [] else buf[4..end])
  }

  datatype One = Raise | Yield(part: Part, plen: nat)

  /** One round of the loop of `decode_network_packet` on the rest of the buffer. */
  function DecodeOne(buf: seq<byte>): (r: One)
    ensures r.Yield? ==> r.plen <= |buf|
  {
    if |buf| < 4 then Raise
    else
      var kind, plen := Read(buf[..2]), Read(buf[2..4]);
      if plen > |buf| then Raise
      else
        var p := if kind == TYPE_VALUES then DecodeValues(plen, buf)
                 else if kind in NUMBER_KINDS then DecodeNumber(kind, buf)
                 else if kind in TEXT_KINDS then Some(DecodeText(kind, plen, buf))
                 else None;
        if p.None? then Raise else Yield(p.value, plen)
  }

  /** The loop after some rounds: still going at an offset, at the end of the buffer, or left by an exception. */
  datatype Status = Going(off: nat) | Finished | Raised

  datatype Rounds = Rounds(parts: seq<Part>, status: Status)

  /** `decode_network_packet`: what at most `k` rounds of the loop from an offset yield, and where they lead. */
  function Iterate(buf: seq<byte>, off: nat, k: nat): Rounds
    requires off <= |buf|
    decreases k
  {
    if off == |buf| then Rounds([], Finished)
    else if k == 0 then Rounds([], Going(off))
    else match DecodeOne(buf[off..])
         case Raise => Rounds([], Raised)
         case Yield(p, plen) =>
           var rest := Iterate(buf, off + plen, k - 1);
           Rounds([p] + rest.parts, rest.status)
  }

  /** The whole behaviour of the loop: the parts before it ends or repeats itself, and the part it repeats. */
  datatype Ending = Ended(status: Status) | Endless(again: Part)

  datatype Decoded = Decoded(parts: seq<Part>, ending: Ending)

  function Decode(buf: seq<byte>): Decoded
  {
    if buf == [] then Decoded([], Ended(Finished))
    else match DecodeOne(buf)
         case Raise => Decoded([], Ended(Raised))
         case Yield(p, plen) =>
           if plen == 0 then Decoded([], Endless(p))
           else var rest := Decode(buf[plen..]);
                Decoded([p] + rest.parts, rest.ending)
  }

  // ------------------------------------------------------------------------------ round trip

  lemma {:induction false} HeaderRead(kind: nat, length: nat, rest: seq<byte>)
    requires kind < Pow256(2) && length < Pow256(2)
    ensures var buf := Header(kind, length) + rest;
            |buf| == 4 + |rest| && Read(buf[..2]) == kind && Read(buf[2..4]) == length && buf[4..] == rest
  {
    ReadBig(kind, 2);
    ReadBig(length, 2);
    var buf := Header(kind, length) + rest;
    assert buf[..2] == Big(kind, 2) && buf[2..4] == Big(length, 2);
  }

  lemma {:induction false} Powers()
    ensures Pow256(2) == 65536
  {
    assert Pow256(1) == 256;
  }

  lemma {:induction false} NumberTrip(kind: nat, n: nat, rest: seq<byte>)
    requires WellFormed(Number(kind, n))
    ensures DecodeOne(Encode(Number(kind, n)) + rest) == Yield(Number(kind, n), 12)
  {
    hide Read, Big, Header;
    Powers();
    HeaderRead(kind, 12, Big(n, 8) + rest);
    ReadBig(n, 8);
    var buf := Encode(Number(kind, n)) + rest;
    assert buf == Header(kind, 12) + (Big(n, 8) + rest);
    assert buf[4..12] == buf[4..][..8] == Big(n, 8);
  }

  lemma {:induction false} TextTrip(kind: nat, bytes: seq<byte>, rest: seq<byte>)
    requires WellFormed(Text(kind, bytes))
    ensures DecodeOne(Encode(Text(kind, bytes)) + rest) == Yield(Text(kind, bytes), |bytes| + 5)
  {
    hide Read, Big, Header;
    Powers();
    HeaderRead(kind, |bytes| + 5, bytes + [0] + rest);
    var buf := Encode(Text(kind, bytes)) + rest;
    assert buf == Header(kind, |bytes| + 5) + (bytes + [0] + rest);
    assert buf[4..4 + |bytes|] == buf[4..][..|bytes|] == bytes;
  }

  lemma {:induction false} PayloadAt(vs: seq<Value>, i: nat)
    requires i < |vs| && forall k :: 0 <= k < |vs| ==> WellFormedValue(vs[k])
    ensures Payloads(vs)[8 * i..8 * i + 8] == Payload(vs[i])
  {
    var n := |vs| - 1;
    var before := Payloads(vs[..n]);
    if i == n {
      assert Payloads(vs)[8 * n..8 * n + 8] == Payload(vs[n]);
    } else {
      PayloadAt(vs[..n], i);
      assert Payloads(vs)[8 * i..8 * i + 8] == before[8 * i..8 * i + 8];
    }
  }

  /** Where a values part keeps its values. */
  lemma {:induction false} ValueBytes(vs: seq<Value>, rest: seq<byte>, i: nat)
    requires WellFormed(Values(vs)) && i < |vs|
    ensures var buf, off := Encode(Values(vs)) + rest, 6 + |vs| + 8 * i;
            && |buf| >= 6 + 9 * |vs|
            && buf[6 + i] == DsType(vs[i]) && buf[off..off + 8] == Payload(vs[i])
  {
    hide Big, Pow256, Payloads, Payload, WellFormedValue, DsType;
    var n, buf := |vs|, Encode(Values(vs)) + rest;
    var front := Header(TYPE_VALUES, 9 * n + 6) + Big(n, 2);
    assert |front| == 6;
    assert buf == front + DsTypes(vs) + Payloads(vs) + rest;
    assert buf[6 + i] == DsTypes(vs)[i];
    PayloadAt(vs, i);
    assert buf[6 + n + 8 * i..6 + n + 8 * i + 8] == Payloads(vs)[8 * i..8 * i + 8];
  }

  lemma {:induction false} ValueTrip(vs: seq<Value>, rest: seq<byte>, i: nat)
    requires WellFormed(Values(vs)) && i < |vs|
    ensures |Encode(Values(vs)) + rest| >= 6 + 9 * |vs|
    ensures ValueAt(Encode(Values(vs)) + rest, |vs|, i) == Some(vs[i])
  {
    hide Read, Pow256, Big, Encode;
    ValueBytes(vs, rest, i);
    if vs[i].Integer? {
      ReadBig(vs[i].n, 8);
    }
  }

  lemma {:induction false} ValuesTrip(vs: seq<Value>, rest: seq<byte>, k: nat)
    requires WellFormed(Values(vs)) && k <= |vs|
    ensures |Encode(Values(vs)) + rest| >= 6 + 9 * |vs|
    ensures ValuesUpTo(Encode(Values(vs)) + rest, |vs|, k) == Some(vs[..k])
  {
    hide Encode, ValueAt, WellFormed;
    EncodedLength(Values(vs));
    if k > 0 {
      ValuesTrip(vs, rest, k - 1);
      ValueTrip(vs, rest, k - 1);
      assert vs[..k] == vs[..k - 1] + [vs[k - 1]];
    }
  }

  lemma {:induction false} EncodedLength(p: Part)
    requires WellFormed(p)
    ensures |Encode(p)| == match p { case Number(_, _) => 12 case Text(_, bytes) => |bytes| + 5 case Values(vs) => 9 * |vs| + 6 }
  {
  }

  lemma {:induction false} ListHeader(vs: seq<Value>, rest: seq<byte>)
    requires WellFormed(Values(vs))
    ensures var n, buf := |vs|, Encode(Values(vs)) + rest;
            && |buf| >= 6 + 9 * n
            && Read(buf[..2]) == TYPE_VALUES && Read(buf[2..4]) == 9 * n + 6 && Read(buf[4..6]) == n
  {
    hide Read, Big, Header, Payloads, DsTypes;
    var n, buf := |vs|, Encode(Values(vs)) + rest;
    var body := Big(n, 2) + (DsTypes(vs) + Payloads(vs) + rest);
    Powers();
    HeaderRead(TYPE_VALUES, 9 * n + 6, body);
    ReadBig(n, 2);
    assert buf == Header(TYPE_VALUES, 9 * n + 6) + body;
    assert buf[4..6] == buf[4..][..2] == body[..2] == Big(n, 2);
  }

  lemma {:induction false} ListTrip(vs: seq<Value>, rest: seq<byte>)
    requires WellFormed(Values(vs))
    ensures DecodeOne(Encode(Values(vs)) + rest) == Yield(Values(vs), 9 * |vs| + 6)
  {
    hide ValuesUpTo, Encode, Read, WellFormed;
    ListHeader(vs, rest);
    ValuesTrip(vs, rest, |vs|);
    assert vs[..|vs|] == vs;
  }

  lemma {:induction false} PartTrip(p: Part, rest: seq<byte>)
    requires WellFormed(p)
    ensures DecodeOne(Encode(p) + rest) == Yield(p, |Encode(p)|)
  {
    hide DecodeOne, Encode;
    EncodedLength(p);
    match p
    case Number(kind, n) => NumberTrip(kind, n, rest);
    case Text(kind, bytes) => TextTrip(kind, bytes, rest);
    case Values(vs) => ListTrip(vs, rest);
  }

  lemma {:induction false} DecodeStep(p: Part, rest: seq<byte>)
    requires WellFormed(p)
    ensures Decode(Encode(p) + rest) == Decoded([p] + Decode(rest).parts, Decode(rest).ending)
  {
    hide DecodeOne, Encode, WellFormed;
    EncodedLength(p);
    PartTrip(p, rest);
    assert (Encode(p) + rest)[|Encode(p)|..] == rest;
  }

  /** Well-formed parts are decoded exactly, whatever follows them. */
  lemma {:induction false} PrefixTrip(parts: seq<Part>, tail: seq<byte>)
    requires forall i :: 0 <= i < |parts| ==> WellFormed(parts[i])
    ensures Decode(EncodeAll(parts) + tail) == Decoded(parts + Decode(tail).parts, Decode(tail).ending)
  {
    hide Decode, Encode, WellFormed;
    if parts == [] {
      assert EncodeAll(parts) + tail == tail;
      assert [] + Decode(tail).parts == Decode(tail).parts;
    } else {
      var p, rest := parts[0], EncodeAll(parts[1..]);
      DecodeStep(p, rest + tail);
      PrefixTrip(parts[1..], tail);
      assert EncodeAll(parts) + tail == Encode(p) + (rest + tail);
      assert parts + Decode(tail).parts == [p] + (parts[1..] + Decode(tail).parts);
    }
  }

  /** Decoding a concatenation of well-formed parts ends and yields exactly those parts. */
  lemma {:induction false} RoundTrip(parts: seq<Part>)
    requires forall i :: 0 <= i < |parts| ==> WellFormed(parts[i])
    ensures Decode(EncodeAll(parts)) == Decoded(parts, Ended(Finished))
  {
    hide WellFormed;
    PrefixTrip(parts, []);
    assert EncodeAll(parts) + [] == EncodeAll(parts);
  }

  // ------------------------------------------------------------------------- termination

  function Copies(p: Part, k: nat): (r: seq<Part>)
    ensures |r| == k
  {
    seq(k, i => p)
  }

  /** What is yielded then: with the length zero a text reaches to the last byte but one of the buffer. */
  lemma {:induction false} ZeroText(kind: nat, text: seq<byte>, last: byte)
    ensures DecodeText(kind, 0, Header(kind, 0) + text + [last]) == Text(kind, text)
  {
    hide Big;
    var buf := Header(kind, 0) + text + [last];
    assert |buf| - 1 > 4 ==> buf[4..|buf| - 1] == text;
  }

  /** At a part of length zero every number of rounds yields that part every time and stays there. */
  lemma {:induction false} Repeats(buf: seq<byte>, off: nat, p: Part, k: nat)
    requires off < |buf| && DecodeOne(buf[off..]) == Yield(p, 0)
    ensures Iterate(buf, off, k) == Rounds(Copies(p, k), Going(off))
  {
    hide DecodeOne;
    if k > 0 {
      Repeats(buf, off, p, k - 1);
      assert Copies(p, k) == [p] + Copies(p, k - 1);
    }
  }

  /** The closed form is what the rounds do: an ended loop has ended after one round more than it yields, and an
      endless one yields its last part in every further round. */
  lemma {:induction false} RoundsOf(buf: seq<byte>, off: nat, k: nat)
    requires off <= |buf|
    ensures var d := Decode(buf[off..]);
            && (d.ending.Ended? && k > |d.parts| ==> Iterate(buf, off, k) == Rounds(d.parts, d.ending.status))
            && (d.ending.Endless? && k >= |d.parts| ==>
                  && Iterate(buf, off, k).parts == d.parts + Copies(d.ending.again, k - |d.parts|)
                  && Iterate(buf, off, k).status.Going?)
            && (k <= |d.parts| ==> Iterate(buf, off, k).parts == d.parts[..k])
            && (d.ending.Ended? ==> !d.ending.status.Going?)
    decreases |buf| - off
  {
    hide DecodeOne, Copies;
    if off < |buf| && DecodeOne(buf[off..]).Yield? {
      var one := DecodeOne(buf[off..]);
      if one.plen == 0 {
        Repeats(buf, off, one.part, k);
        assert [] + Copies(one.part, k) == Copies(one.part, k);
      } else {
        assert buf[off..][one.plen..] == buf[off + one.plen..];
        var rest := Decode(buf[off + one.plen..]);
        RoundsOf(buf, off + one.plen, if k > 0 then k - 1 else 0);
        if k > 0 && rest.ending.Endless? && k - 1 >= |rest.parts| {
          var more := Copies(rest.ending.again, k - 1 - |rest.parts|);
          assert [one.part] + (rest.parts + more) == ([one.part] + rest.parts) + more;
        }
      }
    }
  }

  /** The loop gets to this offset: decodable parts of positive length lead there. */
  ghost predicate Reached(buf: seq<byte>, off: nat)
    decreases |buf|
  {
    off == 0 ||
    var one := if buf == [] then Raise else DecodeOne(buf);
    one.Yield? && 0 < one.plen <= off && Reached(buf[one.plen..], off - one.plen)
  }

  /** A header of length zero that does not raise: a text part, or a number part that is not cut off. */
  predicate ZeroHeader(s: seq<byte>)
  {
    && |s| >= 4 && Read(s[2..4]) == 0
    && (Read(s[..2]) in TEXT_KINDS || (Read(s[..2]) in NUMBER_KINDS && |s| >= 12))
  }

  lemma {:induction false} ZeroHeaderYields(s: seq<byte>)
    ensures ZeroHeader(s) <==> var one := DecodeOne(s); one.Yield? && one.plen == 0
  {
    hide Read, ValuesUpTo;
  }

  /** From a reached zero header on the loop is endless. */
  lemma {:induction false} EndlessFrom(buf: seq<byte>, off: nat)
    requires Reached(buf, off) && off <= |buf| && ZeroHeader(buf[off..])
    ensures Decode(buf).ending.Endless?
    decreases |buf|
  {
    hide DecodeOne, ZeroHeader;
    if off == 0 {
      assert buf[0..] == buf;
      DecodeZero(buf);
    } else {
      var plen := DecodeOne(buf).plen;
      assert buf[plen..][off - plen..] == buf[off..];
      EndlessFrom(buf[plen..], off - plen);
    }
  }

  lemma {:induction false} DecodeZero(s: seq<byte>)
    requires ZeroHeader(s)
    ensures Decode(s).parts == [] && Decode(s).ending.Endless?
  {
    hide DecodeOne, Read;
    ZeroHeaderYields(s);
  }

  /** An endless loop has reached a zero header. */
  lemma {:induction false} EndlessAt(buf: seq<byte>) returns (off: nat)
    requires Decode(buf).ending.Endless?
    ensures Reached(buf, off) && off <= |buf| && ZeroHeader(buf[off..])
    decreases |buf|
  {
    hide DecodeOne, ZeroHeader;
    var plen := DecodeOne(buf).plen;
    if plen == 0 {
      off := 0;
      assert buf[0..] == buf;
      ZeroHeaderYields(buf);
    } else {
      var more := EndlessAt(buf[plen..]);
      off := plen + more;
      assert buf[plen..][more..] == buf[off..];
    }
  }

  /** The loop has ended after some number of rounds. */
  ghost predicate Terminates(buf: seq<byte>)
  {
    exists k :: !Iterate(buf, 0, k).status.Going?
  }

  ghost predicate MeetsZeroHeader(buf: seq<byte>)
  {
    exists off: nat :: Reached(buf, off) && off <= |buf| && ZeroHeader(buf[off..])
  }

  /** The exact condition: the loop over any buffer ends if and only if it meets no zero header. */
  lemma {:induction false} TerminatesExactly(buf: seq<byte>)
    ensures Terminates(buf) <==> !MeetsZeroHeader(buf)
    ensures Decode(buf).ending.Endless? <==> MeetsZeroHeader(buf)
  {
    hide DecodeOne, ZeroHeader, Decode, Iterate, Reached;
    var d := Decode(buf);
    assert buf[0..] == buf;
    if MeetsZeroHeader(buf) {
      var off: nat :| Reached(buf, off) && off <= |buf| && ZeroHeader(buf[off..]);
      EndlessFrom(buf, off);
    }
    if d.ending.Endless? {
      var off := EndlessAt(buf);
      forall k: nat ensures Iterate(buf, 0, k).status.Going? {
        EndlessGoes(buf, k);
      }
    } else {
      RoundsOf(buf, 0, |d.parts| + 1);
    }
  }

  lemma {:induction false} StillGoing(buf: seq<byte>, off: nat, k: nat, m: nat)
    requires off <= |buf| && k <= m && Iterate(buf, off, m).status.Going?
    ensures Iterate(buf, off, k).status.Going?
    decreases k
  {
    hide DecodeOne;
    if k > 0 && off < |buf| && DecodeOne(buf[off..]).Yield? {
      StillGoing(buf, off + DecodeOne(buf[off..]).plen, k - 1, m - 1);
    }
  }

  lemma {:induction false} EndlessGoes(buf: seq<byte>, k: nat)
    requires Decode(buf).ending.Endless?
    ensures Iterate(buf, 0, k).status.Going?
  {
    hide Decode, Iterate;
    assert buf[0..] == buf;
    var m := k + |Decode(buf).parts|;
    RoundsOf(buf, 0, m);
    StillGoing(buf, 0, k, m);
  }

  lemma {:induction false} ZeroTail(kind: nat, tail: seq<byte>)
    requires kind in TEXT_KINDS || (kind in NUMBER_KINDS && |tail| >= 8)
    ensures var d := Decode(Header(kind, 0) + tail); d.parts == [] && d.ending.Endless?
  {
    hide Decode, Read, Header, Pow256;
    Powers();
    HeaderRead(kind, 0, tail);
    DecodeZero(Header(kind, 0) + tail);
  }

  /** For example behind any well-formed parts: they are yielded, and then for every `k` the same part `k` times. */
  lemma {:induction false} ZeroLength(parts: seq<Part>, kind: nat, tail: seq<byte>, k: nat)
    requires forall i :: 0 <= i < |parts| ==> WellFormed(parts[i])
    requires kind in TEXT_KINDS || (kind in NUMBER_KINDS && |tail| >= 8)
    ensures var buf := EncodeAll(parts) + (Header(kind, 0) + tail); var r := Iterate(buf, 0, |parts| + k);
            r.status.Going? && exists p :: r.parts == parts + Copies(p, k)
  {
    hide EncodeAll, WellFormed, Iterate, Decode, Header, Copies;
    var zero := Header(kind, 0) + tail;
    var buf := EncodeAll(parts) + zero;
    ZeroTail(kind, tail);
    PrefixTrip(parts, zero);
    assert parts + [] == parts;
    assert buf[0..] == buf;
    RoundsOf(buf, 0, |parts| + k);
  }

  // --------------------------------------------------------------------------- the decoders

  /** `decode_network_values`. */
  method DecodeNetworkValues(plen: nat, buf: seq<byte>) returns (part: Option<Part>)
    requires plen <= |buf|
    ensures part == DecodeValues(plen, buf)
  {
    hide Read;
    if |buf| < 6 {
      return None;
    }
    var n := Read(buf[4..6]);
    if 9 * n + 6 != plen {
      return None;
    }
    var off, k, result := 6 + n, 0, [];
    while k < n
      invariant 0 <= k <= n && off == 6 + n + 8 * k && 6 + 9 * n <= |buf|
      invariant ValuesUpTo(buf, n, k) == Some(result)
    {
      var ds := buf[6 + k];
      if ds == 1 {
        result := result + [Gauge(buf[off..off + 8])];
      } else if ds == 0 || ds == 2 || ds == 3 {
        result := result + [Integer(ds, Read(buf[off..off + 8]))];
      } else {
        UnknownType(buf, n, k);
        return None;
      }
      off := off + 8;
      k := k + 1;
    }
    return Some(Values(result));
  }

  lemma {:induction false} UnknownFrom(buf: seq<byte>, n: nat, k: nat, m: nat)
    requires k <= m <= n && 6 + 9 * n <= |buf| && ValuesUpTo(buf, n, k).None?
    ensures ValuesUpTo(buf, n, m).None?
  {
    if k < m {
      UnknownFrom(buf, n, k, m - 1);
    }
  }

  lemma {:induction false} UnknownType(buf: seq<byte>, n: nat, k: nat)
    requires k < n && 6 + 9 * n <= |buf| && ValueAt(buf, n, k).None?
    ensures ValuesUpTo(buf, n, n).None?
  {
    UnknownFrom(buf, n, k + 1, n);
  }

  /** One round of the loop of `decode_network_packet`. */
  method DecodeRound(rest: seq<byte>) returns (one: One)
    ensures one == DecodeOne(rest)
  {
    hide Read, DecodeNumber, DecodeText, DecodeValues;
    if |rest| < 4 {
      return Raise;
    }
    var kind, plen := Read(rest[..2]), Read(rest[2..4]);
    if plen > |rest| {
      return Raise;
    }
    var part: Option<Part> := None;
    if kind == TYPE_VALUES {
      part := DecodeNetworkValues(plen, rest);
    } else if kind in NUMBER_KINDS {
      part := DecodeNumber(kind, rest);
    } else if kind in TEXT_KINDS {
      part := Some(DecodeText(kind, plen, rest));
    }
    return if part.None? then Raise else Yield(part.value, plen);
  }

  /** `decode_network_packet`, for as many rounds as are asked for. */
  method DecodeNetworkPacket(buf: seq<byte>, rounds: nat) returns (r: Rounds)
    ensures r == Iterate(buf, 0, rounds)
  {
    hide DecodeOne;
    var off, parts, k := 0, [], 0;
    while off < |buf| && k < rounds
      invariant 0 <= off <= |buf| && k <= rounds
      invariant var rest := Iterate(buf, off, rounds - k);
                Iterate(buf, 0, rounds) == Rounds(parts + rest.parts, rest.status)
    {
      var one := DecodeRound(buf[off..]);
      if one.Raise? {
        return Rounds(parts, Raised);
      }
      parts := parts + [one.part];
      off := off + one.plen;
      k := k + 1;
    }
    r := Rounds(parts, if off == |buf| then Finished else Going(off));
  }

  // ------------------------------------------------------------------------- interpretation

  const HR_TIME_DIV := 1073741824.0

  /** The fields a value list and a notification have in common. */
  datatype Fields = Fields(
    time: real, host: Option<seq<byte>>, plugin: Option<seq<byte>>, pluginInstance: Option<seq<byte>>,
    typ: Option<seq<byte>>, typeInstance: Option<seq<byte>>)

  datatype Output =
    | ValueList(fields: Fields, interval: Option<real>, values: seq<Value>)
    | Notification(fields: Fields, severity: nat, message: seq<byte>)

  const NO_FIELDS := Fields(0.0, None, None, None, None, None)

  /** The data has the type of its kind; kinds that nobody knows may carry anything. */
  predicate Typed(p: Part)
  {
    match p
    case Number(kind, _) => kind !in TEXT_KINDS && kind != TYPE_VALUES
    case Text(kind, _) => kind !in NUMBER_KINDS && kind != TYPE_VALUES
    case Values(_) => true
  }

  function SetNumber(f: Fields, kind: nat, n: nat): Fields
  {
    if kind == TYPE_TIME then f.(time := n as real)
    else if kind == TYPE_TIME_HR then f.(time := n as real / HR_TIME_DIV)
    else f
  }

  function SetText(f: Fields, kind: nat, bytes: seq<byte>): Fields
  {
    if kind == TYPE_HOST then f.(host := Some(bytes))
    else if kind == TYPE_PLUGIN then f.(plugin := Some(bytes))
    else if kind == TYPE_PLUGIN_INSTANCE then f.(pluginInstance := Some(bytes))
    else if kind == TYPE_TYPE then f.(typ := Some(bytes))
    else if kind == TYPE_TYPE_INSTANCE then f.(typeInstance := Some(bytes))
    else f
  }

  /** The most recent text of a kind. */
  function LastText(parts: seq<Part>, kind: nat): Option<seq<byte>>
  {
    if parts == [] then None
    else
      var p := parts[|parts| - 1];
      if p.Text? && p.kind == kind then Some(p.bytes) else LastText(parts[..|parts| - 1], kind)
  }

  /** The most recent number of a kind or its high-resolution variant, in seconds. */
  function LastSeconds(parts: seq<Part>, kind: nat, hr: nat): Option<real>
  {
    if parts == [] then None
    else
      var p := parts[|parts| - 1];
      if p.Number? && p.kind == kind then Some(p.n as real)
      else if p.Number? && p.kind == hr then Some(p.n as real / HR_TIME_DIV)
      else LastSeconds(parts[..|parts| - 1], kind, hr)
  }

  /** The most recent severity that is one of the three known ones. */
  function LastSeverity(parts: seq<Part>): nat
  {
    if parts == [] then 0
    else
      var p := parts[|parts| - 1];
      if p.Number? && p.kind == TYPE_SEVERITY && p.n in {1, 2, 4} then p.n else LastSeverity(parts[..|parts| - 1])
  }

  function Recent(parts: seq<Part>): Fields
  {
    var time := LastSeconds(parts, TYPE_TIME, TYPE_TIME_HR);
    Fields(if time.Some? then time.value else 0.0, LastText(parts, TYPE_HOST), LastText(parts, TYPE_PLUGIN),
           LastText(parts, TYPE_PLUGIN_INSTANCE), LastText(parts, TYPE_TYPE), LastText(parts, TYPE_TYPE_INSTANCE))
  }

  /** Every value list and notification with the most recent fields before it. */
  function Emitted(parts: seq<Part>): seq<Output>
  {
    if parts == [] then []
    else
      var before, p := parts[..|parts| - 1], parts[|parts| - 1];
      Emitted(before) +
      (if p.Values? then [ValueList(Recent(before), LastSeconds(before, TYPE_INTERVAL, TYPE_INTERVAL_HR), p.values)]
       else if p.Text? && p.kind == TYPE_MESSAGE then [Notification(Recent(before), LastSeverity(before), p.bytes)]
       else [])
  }

  /** The severity in force is the last one that is 1, 2 or 4, and 0 before there is any. */
  lemma {:induction false} SeverityMeans(parts: seq<Part>) returns (k: int)
    ensures -1 <= k < |parts|
    ensures if k < 0 then LastSeverity(parts) == 0
            else parts[k] == Number(0x101, LastSeverity(parts)) && LastSeverity(parts) in {1, 2, 4}
    ensures forall i :: k < i < |parts| ==>
              parts[i] != Number(0x101, 1) && parts[i] != Number(0x101, 2) && parts[i] != Number(0x101, 4)
  {
    if parts == [] {
      k := -1;
    } else {
      var n, p := |parts| - 1, parts[|parts| - 1];
      if p.Number? && p.kind == 0x101 && (p.n == 1 || p.n == 2 || p.n == 4) {
        k := n;
      } else {
        k := SeverityMeans(parts[..n]);
        forall i | k < i < |parts|
          ensures parts[i] != Number(0x101, 1) && parts[i] != Number(0x101, 2) && parts[i] != Number(0x101, 4)
        {
          assert i < n ==> parts[i] == parts[..n][i];
        }
      }
    }
  }

  /** One more part: values and messages come out with the fields before them, everything else is silent. */
  lemma {:induction false} EmittedNext(before: seq<Part>, vs: seq<Value>, kind: nat, n: nat, bytes: seq<byte>)
    ensures Emitted(before + [Values(vs)]) ==
              Emitted(before) + [ValueList(Recent(before), LastSeconds(before, 7, 9), vs)]
    ensures Emitted(before + [Text(0x100, bytes)]) ==
              Emitted(before) + [Notification(Recent(before), LastSeverity(before), bytes)]
    ensures kind != 0x100 ==> Emitted(before + [Text(kind, bytes)]) == Emitted(before)
    ensures Emitted(before + [Number(kind, n)]) == Emitted(before)
  {
    hide Recent, LastSeconds, LastSeverity;
    assert (before + [Values(vs)])[..|before|] == before && (before + [Text(kind, bytes)])[..|before|] == before;
    assert (before + [Text(0x100, bytes)])[..|before|] == before && (before + [Number(kind, n)])[..|before|] == before;
    assert Emitted(before) + [] == Emitted(before);
  }

  lemma {:induction false} RecentNumber(before: seq<Part>, kind: nat, n: nat)
    ensures Recent(before + [Number(kind, n)]) == SetNumber(Recent(before), kind, n)
  {
    assert (before + [Number(kind, n)])[..|before|] == before;
  }

  lemma {:induction false} RecentText(before: seq<Part>, kind: nat, bytes: seq<byte>)
    ensures Recent(before + [Text(kind, bytes)]) == SetText(Recent(before), kind, bytes)
  {
    assert (before + [Text(kind, bytes)])[..|before|] == before;
  }

  lemma {:induction false} RecentValues(before: seq<Part>, vs: seq<Value>)
    ensures Recent(before + [Values(vs)]) == Recent(before)
  {
    assert (before + [Values(vs)])[..|before|] == before;
  }

  /** `interpret_opcodes`: the mutable value list and notification, copied out at every yield. */
  method InterpretOpcodes(parts: seq<Part>) returns (out: seq<Output>)
    requires forall i :: 0 <= i < |parts| ==> Typed(parts[i])
    ensures out == Emitted(parts)
  {
    hide Recent;
    var vl, interval: Option<real>, nt, severity := NO_FIELDS, None, NO_FIELDS, 0;
    out := [];
    var i := 0;
    assert Recent([]) == NO_FIELDS by { NothingRecent(); }
    while i < |parts|
      invariant 0 <= i <= |parts|
      invariant vl == Recent(parts[..i]) && nt == Recent(parts[..i])
      invariant interval == LastSeconds(parts[..i], TYPE_INTERVAL, TYPE_INTERVAL_HR)
      invariant severity == LastSeverity(parts[..i])
      invariant out == Emitted(parts[..i])
    {
      ghost var before := parts[..i];
      assert parts[..i + 1] == before + [parts[i]] && parts[..i + 1][..i] == before;
      match parts[i] {
        case Number(kind, n) =>
          RecentNumber(before, kind, n);
          vl, nt := SetNumber(vl, kind, n), SetNumber(nt, kind, n);
          if kind == TYPE_INTERVAL {
            interval := Some(n as real);
          } else if kind == TYPE_INTERVAL_HR {
            interval := Some(n as real / HR_TIME_DIV);
          } else if kind == TYPE_SEVERITY && n in {1, 2, 4} {
            severity := n;
          }
        case Text(kind, bytes) =>
          RecentText(before, kind, bytes);
          vl, nt := SetText(vl, kind, bytes), SetText(nt, kind, bytes);
          if kind == TYPE_MESSAGE {
            out := out + [Notification(nt, severity, bytes)];
          }
        case Values(vs) =>
          RecentValues(before, vs);
          out := out + [ValueList(vl, interval, vs)];
      }
      i := i + 1;
    }
    assert parts[..i] == parts;
  }

  lemma {:induction false} NothingRecent()
    ensures Recent([]) == NO_FIELDS
  {
  }

  lemma {:induction false} DecodesTyped(buf: seq<byte>, off: nat, k: nat)
    requires off <= |buf|
    ensures forall i :: 0 <= i < |Iterate(buf, off, k).parts| ==> Typed(Iterate(buf, off, k).parts[i])
    decreases k
  {
    hide Read, ValuesUpTo;
    if k > 0 && off < |buf| && DecodeOne(buf[off..]).Yield? {
      DecodesTyped(buf, off + DecodeOne(buf[off..]).plen, k - 1);
    }
  }

  /** The whole client for a number of rounds; for a packet of well-formed parts one round more than it has parts
      is enough for every value list and message, in order, with the fields in force. */
  method Receive(buf: seq<byte>, rounds: nat, ghost sent: seq<Part>) returns (out: seq<Output>, status: Status)
    ensures status == Iterate(buf, 0, rounds).status && out == Emitted(Iterate(buf, 0, rounds).parts)
    ensures (forall i :: 0 <= i < |sent| ==> WellFormed(sent[i])) && buf == EncodeAll(sent) && rounds > |sent| ==>
              status == Finished && out == Emitted(sent)
  {
    hide EncodeAll, Emitted, WellFormed, Iterate, Decode;
    var r := DecodeNetworkPacket(buf, rounds);
    DecodesTyped(buf, 0, rounds);
    out := InterpretOpcodes(r.parts);
    status := r.status;
    if (forall i :: 0 <= i < |sent| ==> WellFormed(sent[i])) && buf == EncodeAll(sent) && rounds > |sent| {
      RoundTrip(sent);
      assert buf[0..] == buf;
      RoundsOf(buf, 0, rounds);
    }
  }
}

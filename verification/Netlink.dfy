/** Netlink attributes: the alignment and the attribute scan of process/netlink_process.go and process/netlink_query.go. */
module Netlink {

  newtype byte = x: int | 0 <= x < 256

  const ALIGNTO := 4

  // ---------------------------------------------------------------- alignment

  /** Bitwise and of two natural numbers. */
  function BitAnd(a: nat, b: nat): nat {
    if a == 0 || b == 0 then 0 else a % 2 * (b % 2) + 2 * BitAnd(a / 2, b / 2)
  }

  function Pow2(n: nat): (r: nat)
    ensures r > 0
  {
    if n == 0 then 1 else 2 * Pow2(n - 1)
  }

  /** Unsigned overflow. */
  function Wrap(x: nat, m: nat): (r: nat)
    requires m > 0
    ensures x < m ==> r == x
  {
    x % m
  }

  /** The complement of a small number in a word of `w` bits. */
  function Complement(w: nat, x: nat): nat
    requires w >= 2 && x < 4
  {
    assert Pow2(w) == 2 * Pow2(w - 1) && Pow2(w - 1) == 2 * Pow2(w - 2);
    Pow2(w) - 1 - x
  }

  /** nlaAlignTo, nlmsgAlign and rtaAlign on words of `w` bits: add three, then mask with the complement of three. */
  function MaskAlign(w: nat, l: nat): nat
    requires w >= 2
  {
    BitAnd(Wrap(l + ALIGNTO - 1, Pow2(w)), Complement(w, ALIGNTO - 1))
  }

  /** The least multiple of four that is not below `l`. */
  function Align(l: nat): (r: nat)
    ensures l <= r < l + ALIGNTO && r % ALIGNTO == 0
  {
    (l + 3) / 4 * 4
  }

  lemma AlignIsLeast(l: nat, m: nat)
    requires l <= m && m % ALIGNTO == 0
    ensures Align(l) <= m
  {
  }

  lemma AndEven(a: nat, b: nat)
    ensures BitAnd(a, 2 * b) == 2 * BitAnd(a / 2, b)
  {
    assert 2 * b / 2 == b && 2 * b % 2 == 0;
  }

  lemma AndOdd(a: nat, b: nat)
    ensures BitAnd(a, 2 * b + 1) == a % 2 + 2 * BitAnd(a / 2, b)
  {
    assert (2 * b + 1) / 2 == b && (2 * b + 1) % 2 == 1;
  }

  /** Masking with all ones changes nothing. */
  lemma {:induction false} AndOnes(a: nat, w: nat)
    requires a < Pow2(w)
    ensures BitAnd(a, Pow2(w) - 1) == a
  {
    if w > 0 {
      AndOdd(a, Pow2(w - 1) - 1);
      AndOnes(a / 2, w - 1);
    }
  }

  lemma {:induction false} AndFours(a: nat, k: nat)
    requires a / 4 < Pow2(k)
    ensures BitAnd(a, 4 * (Pow2(k) - 1)) == a / 4 * 4
  {
    var b := Pow2(k) - 1;
    AndEven(a, 2 * b);
    AndEven(a / 2, b);
    AndOnes(a / 4, k);
    assert 2 * (2 * b) == 4 * b;
    assert a / 2 / 2 == a / 4;
  }

  /** The mask form rounds up to the least multiple of four, unless the addition wraps around. */
  lemma MaskIsAlign(w: nat, l: nat)
    requires w >= 2 && l + 3 < Pow2(w)
    ensures MaskAlign(w, l) == Align(l)
  {
    var k := w - 2;
    assert Pow2(w) == 2 * Pow2(w - 1) && Pow2(w - 1) == 2 * Pow2(k);
    assert Complement(w, 3) == 4 * (Pow2(k) - 1);
    AndFours(l + 3, k);
  }

  // ---------------------------------------------------------------- attributes

  /** An attribute with the bytes that pad it to the alignment. */
  datatype Attr = Attr(typ: nat, payload: seq<byte>, pad: seq<byte>)

  predicate WellFormed(a: Attr) {
    && a.typ < 0x1_0000
    && 4 + |a.payload| < 0x1_0000
    && |a.pad| == Align(4 + |a.payload|) - (4 + |a.payload|)
  }

  /** A 16-bit number in the host's byte order. */
  function U16(little: bool, b0: byte, b1: byte): nat {
    if little then b0 as nat + 256 * b1 as nat else 256 * b0 as nat + b1 as nat
  }

  /** The first byte is the lower one on a little-endian host, and the higher one on a big-endian host. */
  lemma U16Bytes(little: bool, b0: byte, b1: byte)
    ensures U16(little, b0, b1) % 256 == (if little then b0 else b1) as nat
    ensures U16(little, b0, b1) / 256 == (if little then b1 else b0) as nat
  {
  }

  function PutU16(little: bool, n: nat): (r: seq<byte>)
    requires n < 0x1_0000
    ensures |r| == 2 && U16(little, r[0], r[1]) == n
  {
    if little then [(n % 256) as byte, (n / 256) as byte] else [(n / 256) as byte, (n % 256) as byte]
  }

  function EncodeOne(little: bool, a: Attr): (r: seq<byte>)
    requires WellFormed(a)
    ensures |r| == Align(4 + |a.payload|)
  {
    PutU16(little, 4 + |a.payload|) + PutU16(little, a.typ) + a.payload + a.pad
  }

  function Encode(little: bool, attrs: seq<Attr>): seq<byte>
    requires forall a :: a in attrs ==> WellFormed(a)
  {
    if attrs == [] then [] else EncodeOne(little, attrs[0]) + Encode(little, attrs[1..])
  }

  /** The outcome of the scan: a payload, no such attribute, an endless loop on a zero length, a header read past
      the buffer, or a slice panic on a length that is too short or too long. */
  datatype Outcome = Found(payload: seq<byte>) | Missing | Hangs | Overreads | Panics

  /** At position `j` of the buffer is an attribute with this key and payload. */
  predicate IsAttrAt(little: bool, buf: seq<byte>, j: nat, key: nat, payload: seq<byte>) {
    && j + 4 + |payload| <= |buf|
    && U16(little, buf[j], buf[j+1]) == 4 + |payload| && U16(little, buf[j+2], buf[j+3]) == key
    && payload == buf[j+4..j+4+|payload|]
  }

  /** The scan of the first `n` bytes of `buf`, from position `i`; the rest of `buf` is spare capacity of the slice. */
  function Scan(little: bool, buf: seq<byte>, n: nat, i: nat, key: nat): Outcome
    requires n <= |buf|
    decreases n - i
  {
    if i >= n then Missing
    else if i + 4 > |buf| then Overreads
    else
      var len := U16(little, buf[i], buf[i+1]);
      if U16(little, buf[i+2], buf[i+3]) == key then
        if len < 4 || i + len > |buf| then Panics
        else Found(buf[i+4..i+len])
      else if len == 0 then Hangs
      else Scan(little, buf, n, i + Align(len), key)
  }

  /** The attribute scan of nlAttr; a zero length, on which the code would loop forever, is reported instead. */
  method NlAttr(little: bool, buf: seq<byte>, n: nat, key: nat) returns (r: Outcome)
    requires n <= |buf|
    ensures r == Scan(little, buf, n, 0, key)
  {
    var i := 0;
    while i < n
      invariant Scan(little, buf, n, i, key) == Scan(little, buf, n, 0, key)
    {
      if i + 4 > |buf| {
        return Overreads;
      }
      var len := U16(little, buf[i], buf[i+1]);
      if U16(little, buf[i+2], buf[i+3]) == key {
        if len < 4 || i + len > |buf| {
          return Panics;
        }
        return Found(buf[i+4..i+len]);
      }
      if len == 0 {
        return Hangs;
      }
      i := i + Align(len);
    }
    return Missing;
  }

  // ---------------------------------------------------------------- round trip

  function FirstWith(attrs: seq<Attr>, key: nat): Outcome {
    if attrs == [] then Missing
    else if attrs[0].typ == key then Found(attrs[0].payload)
    else FirstWith(attrs[1..], key)
  }

  lemma ScanOne(little: bool, front: seq<byte>, a: Attr, rest: seq<byte>, buf: seq<byte>, n: nat, key: nat)
    requires WellFormed(a) && buf == front + EncodeOne(little, a) + rest && |front| < n <= |buf|
    ensures Scan(little, buf, n, |front|, key) ==
            if a.typ == key then Found(a.payload) else Scan(little, buf, n, |front + EncodeOne(little, a)|, key)
  {
    var i := |front|;
    var len := 4 + |a.payload|;
    var lens, typs := PutU16(little, len), PutU16(little, a.typ);
    assert EncodeOne(little, a) == lens + typs + a.payload + a.pad;
    assert buf[i] == lens[0] && buf[i+1] == lens[1] && buf[i+2] == typs[0] && buf[i+3] == typs[1];
    assert buf[i+4..i+len] == a.payload;
  }

  lemma Regroup(front: seq<byte>, one: seq<byte>, more: seq<byte>, spare: seq<byte>)
    ensures front + (one + more) + spare == front + one + (more + spare) == front + one + more + spare
  {
  }

  lemma SplitFirst(little: bool, front: seq<byte>, attrs: seq<Attr>, spare: seq<byte>)
    requires attrs != [] && forall a :: a in attrs ==> WellFormed(a)
    ensures var one, more := EncodeOne(little, attrs[0]), Encode(little, attrs[1..]);
            && front + Encode(little, attrs) + spare == front + one + (more + spare) == front + one + more + spare
            && |front + Encode(little, attrs)| == |front + one + more| > |front|
  {
    var one, more := EncodeOne(little, attrs[0]), Encode(little, attrs[1..]);
    Regroup(front, one, more, spare);
  }

  /** Encoding any well-formed list and scanning it, from the attributes after `front`, gives the payload of
      the first attribute with the key, or that there is none; whatever follows in the buffer does not matter. */
  lemma {:induction false} ScanRoundTrip(little: bool, front: seq<byte>, attrs: seq<Attr>, spare: seq<byte>, key: nat, buf: seq<byte>, n: nat)
    requires forall a :: a in attrs ==> WellFormed(a)
    requires buf == front + Encode(little, attrs) + spare && n == |front + Encode(little, attrs)|
    ensures Scan(little, buf, n, |front|, key) == FirstWith(attrs, key)
    decreases attrs
  {
    if attrs == [] {
      assert n == |front|;
    } else {
      SplitFirst(little, front, attrs, spare);
      ScanOne(little, front, attrs[0], Encode(little, attrs[1..]) + spare, buf, n, key);
      ScanRoundTrip(little, front + EncodeOne(little, attrs[0]), attrs[1..], spare, key, buf, n);
    }
  }

  // ---------------------------------------------------------------- where the scan ends

  /** At `j` is the header of an attribute with another key, whose length is not zero. */
  predicate Skips(little: bool, buf: seq<byte>, n: nat, key: nat, j: nat) {
    j < n && j + 4 <= |buf| && U16(little, buf[j+2], buf[j+3]) != key && U16(little, buf[j], buf[j+1]) != 0
  }

  /** From `j` to `j'` lies one attribute to skip, with its padding. */
  predicate SkipsTo(little: bool, buf: seq<byte>, n: nat, key: nat, j: nat, j': nat) {
    Skips(little, buf, n, key, j) && j' == j + Align(U16(little, buf[j], buf[j+1]))
  }

  predicate LinkAt(little: bool, buf: seq<byte>, n: nat, key: nat, at: seq<nat>, k: nat)
    requires k + 1 < |at|
  {
    SkipsTo(little, buf, n, key, at[k], at[k+1])
  }

  predicate Chain(little: bool, buf: seq<byte>, n: nat, key: nat, at: seq<nat>) {
    forall k: nat :: k < |at| - 1 ==> LinkAt(little, buf, n, key, at, k)
  }

  /** What the buffer holds where the scan ends: nothing more, half a header, a header with the key whose length is
      shorter than itself or reaches past the buffer, another header of length zero, or an attribute with the key. */
  predicate EndsWith(little: bool, buf: seq<byte>, n: nat, key: nat, j: nat, r: Outcome) {
    match r
    case Missing => j >= n
    case Overreads => j < n && |buf| < j + 4
    case Panics =>
      && j < n && j + 4 <= |buf| && U16(little, buf[j+2], buf[j+3]) == key
      && (U16(little, buf[j], buf[j+1]) < 4 || |buf| < j + U16(little, buf[j], buf[j+1]))
    case Hangs => j < n && j + 4 <= |buf| && U16(little, buf[j+2], buf[j+3]) != key && U16(little, buf[j], buf[j+1]) == 0
    case Found(payload) => j < n && IsAttrAt(little, buf, j, key, payload)
  }

  ghost predicate ChainTo(little: bool, buf: seq<byte>, n: nat, i: nat, key: nat, at: seq<nat>, r: Outcome) {
    at != [] && at[0] == i && Chain(little, buf, n, key, at) && EndsWith(little, buf, n, key, at[|at|-1], r)
  }

  /** On every buffer, each outcome of the scan occurs if and only if skipping leads to a place that calls for it. */
  lemma OutcomeIff(little: bool, buf: seq<byte>, n: nat, i: nat, key: nat, r: Outcome)
    requires n <= |buf|
    ensures Scan(little, buf, n, i, key) == r <==> exists at :: ChainTo(little, buf, n, i, key, at, r)
  {
    if Scan(little, buf, n, i, key) == r {
      var at := ChainOf(little, buf, n, i, key);
    }
    if exists at :: ChainTo(little, buf, n, i, key, at, r) {
      var at :| ChainTo(little, buf, n, i, key, at, r);
      ChainScans(little, buf, n, key, at);
      EndScans(little, buf, n, at[|at|-1], key, r);
    }
  }

  lemma {:induction false} ChainOf(little: bool, buf: seq<byte>, n: nat, i: nat, key: nat) returns (at: seq<nat>)
    requires n <= |buf|
    ensures ChainTo(little, buf, n, i, key, at, Scan(little, buf, n, i, key))
    decreases n - i
  {
    if Skips(little, buf, n, key, i) {
      var next := i + Align(U16(little, buf[i], buf[i+1]));
      SkippedScan(little, buf, n, key, i, next);
      var rest := ChainOf(little, buf, n, next, key);
      ChainMore(little, buf, n, key, i, rest);
      at := [i] + rest;
    } else {
      at := [i];
      ScanEnds(little, buf, n, i, key);
    }
  }

  lemma SkippedScan(little: bool, buf: seq<byte>, n: nat, key: nat, j: nat, j': nat)
    requires n <= |buf| && SkipsTo(little, buf, n, key, j, j')
    ensures Scan(little, buf, n, j, key) == Scan(little, buf, n, j', key)
  {
  }

  lemma ScanEnds(little: bool, buf: seq<byte>, n: nat, j: nat, key: nat)
    requires n <= |buf| && !Skips(little, buf, n, key, j)
    ensures EndsWith(little, buf, n, key, j, Scan(little, buf, n, j, key))
  {
  }

  lemma ChainMore(little: bool, buf: seq<byte>, n: nat, key: nat, i: nat, rest: seq<nat>)
    requires rest != [] && Chain(little, buf, n, key, rest) && SkipsTo(little, buf, n, key, i, rest[0])
    ensures Chain(little, buf, n, key, [i] + rest)
  {
    var at := [i] + rest;
    forall k: nat | k < |at| - 1 ensures LinkAt(little, buf, n, key, at, k) {
      assert k > 0 ==> LinkAt(little, buf, n, key, rest, k - 1);
    }
  }

  lemma ChainLess(little: bool, buf: seq<byte>, n: nat, key: nat, at: seq<nat>)
    requires |at| > 1 && Chain(little, buf, n, key, at)
    ensures Chain(little, buf, n, key, at[1..]) && SkipsTo(little, buf, n, key, at[0], at[1])
  {
    assert LinkAt(little, buf, n, key, at, 0);
    forall k: nat | k < |at[1..]| - 1 ensures LinkAt(little, buf, n, key, at[1..], k) {
      assert LinkAt(little, buf, n, key, at, k + 1);
    }
  }

  lemma {:induction false} ChainScans(little: bool, buf: seq<byte>, n: nat, key: nat, at: seq<nat>)
    requires n <= |buf| && at != [] && Chain(little, buf, n, key, at)
    ensures Scan(little, buf, n, at[0], key) == Scan(little, buf, n, at[|at|-1], key)
    decreases |at|
  {
    if |at| > 1 {
      ChainLess(little, buf, n, key, at);
      SkippedScan(little, buf, n, key, at[0], at[1]);
      ChainScans(little, buf, n, key, at[1..]);
    }
  }

  lemma EndScans(little: bool, buf: seq<byte>, n: nat, j: nat, key: nat, r: Outcome)
    requires n <= |buf| && EndsWith(little, buf, n, key, j, r)
    ensures Scan(little, buf, n, j, key) == r
  {
  }
}

/** UTF-16 decoding with replacement (section 2.2 of RFC 2781), UTF-8 encoding
    (section 3 of RFC 3629) and the fatal UTF-8 decoder of the WHATWG Encoding Standard. */
module Utf {
  import opened Options

  type Byte = n: nat | n < 0x100
  type Unit = n: nat | n < 0x10000
  type Scalar = n: nat | n < 0xD800 || 0xE000 <= n < 0x110000

  const REPLACEMENT: Scalar := 0xFFFD

  // ----- UTF-16 -----

  predicate IsLead(u: Unit) { 0xD800 <= u < 0xDC00 }
  predicate IsTrail(u: Unit) { 0xDC00 <= u < 0xE000 }

  function Pair(lead: Unit, trail: Unit): Scalar
    requires IsLead(lead) && IsTrail(trail)
  {
    0x10000 + (lead - 0xD800) * 0x400 + (trail - 0xDC00)
  }

  /** How many units the first scalar value takes. */
  function Width(s: seq<Unit>): (n: nat)
    requires s != []
    ensures 1 <= n <= 2 && n <= |s|
  {
    if IsLead(s[0]) && |s| > 1 && IsTrail(s[1]) then 2 else 1
  }

  /** The first scalar value; a lone surrogate reads as U+FFFD. */
  function First(s: seq<Unit>): Scalar
    requires s != []
  {
    if Width(s) == 2 then Pair(s[0], s[1])
    else if IsLead(s[0]) || IsTrail(s[0]) then REPLACEMENT
    else s[0]
  }

  function Scalars(s: seq<Unit>): seq<Scalar> {
    if s == [] then [] else [First(s)] + Scalars(s[Width(s)..])
  }

  function Units(v: Scalar): (us: seq<Unit>)
    ensures 1 <= |us| <= 2
  {
    if v < 0x10000 then [v] else [0xD800 + (v - 0x10000) / 0x400, 0xDC00 + (v - 0x10000) % 0x400]
  }

  function AllUnits(vs: seq<Scalar>): seq<Unit> {
    if vs == [] then [] else Units(vs[0]) + AllUnits(vs[1..])
  }

  /** Surrogates occur in pairs only. */
  ghost predicate NoLoneSurrogate(s: seq<Unit>) {
    s == [] || ((Width(s) == 2 || !(IsLead(s[0]) || IsTrail(s[0]))) && NoLoneSurrogate(s[Width(s)..]))
  }

  /** Surrogate pairs number the scalar values above FFFF in order, first to last. */
  lemma PairsInOrder(a: Unit, b: Unit, c: Unit, d: Unit)
    requires 0xD800 <= a < 0xDC00 && 0xDC00 <= b < 0xE000 && 0xD800 <= c < 0xDC00 && 0xDC00 <= d < 0xE000
    ensures Pair(0xD800, 0xDC00) == 0x1_0000 && Pair(0xDBFF, 0xDFFF) == 0x10_FFFF
    ensures Pair(a, b) < Pair(c, d) <==> a < c || (a == c && b < d)
  {
  }

  lemma FirstUnits(s: seq<Unit>)
    requires s != []
    ensures Units(First(s)) == s[..Width(s)] <==> Width(s) == 2 || !(IsLead(s[0]) || IsTrail(s[0]))
    ensures |Units(First(s))| == Width(s)
  {
    if Width(s) == 2 {
      var a: int, b: int := s[0] - 0xD800, s[1] - 0xDC00;
      assert First(s) - 0x10000 == a * 0x400 + b;
      assert Units(First(s)) == [s[0], s[1]];
      assert s[..2] == [s[0], s[1]];
    } else {
      assert s[..1] == [s[0]];
      if Units(First(s)) == s[..1] { assert Units(First(s))[0] == s[0]; }
    }
  }

  /** A string survives the trip through scalar values exactly when it has no lone surrogate. */
  lemma {:induction false} UnitsOfScalars(s: seq<Unit>)
    ensures AllUnits(Scalars(s)) == s <==> NoLoneSurrogate(s)
    ensures |AllUnits(Scalars(s))| == |s|
    decreases |s|
  {
    if s != [] {
      var n := Width(s);
      FirstUnits(s);
      UnitsOfScalars(s[n..]);
      var us, rest := Units(First(s)), AllUnits(Scalars(s[n..]));
      assert Scalars(s)[1..] == Scalars(s[n..]);
      assert AllUnits(Scalars(s)) == us + rest;
      assert s == s[..n] + s[n..];
      if us + rest == s {
        assert us == (us + rest)[..n] && rest == (us + rest)[n..];
      }
    }
  }

  // ----- UTF-8 encoding -----

  function EncodeScalar(v: Scalar): (bs: seq<Byte>)
    ensures 1 <= |bs| <= 4
  {
    if v < 0x80 then [v]
    else if v < 0x800 then [0xC0 + v / 0x40, 0x80 + v % 0x40]
    else if v < 0x10000 then [0xE0 + v / 0x1000, 0x80 + v / 0x40 % 0x40, 0x80 + v % 0x40]
    else [0xF0 + v / 0x40000, 0x80 + v / 0x1000 % 0x40, 0x80 + v / 0x40 % 0x40, 0x80 + v % 0x40]
  }

  function EncodeAll(vs: seq<Scalar>): seq<Byte> {
    if vs == [] then [] else EncodeScalar(vs[0]) + EncodeAll(vs[1..])
  }

  /** UTF-8 of a string of UTF-16 units. */
  function Utf8(s: seq<Unit>): seq<Byte> {
    EncodeAll(Scalars(s))
  }

  lemma Utf8Step(s: seq<Unit>)
    requires s != []
    ensures Utf8(s) == EncodeScalar(First(s)) + Utf8(s[Width(s)..])
    ensures |EncodeScalar(First(s))| <= 3 * Width(s)
  {
    assert Scalars(s)[1..] == Scalars(s[Width(s)..]);
  }

  /** A lone surrogate becomes the bytes EF BF BD. */
  lemma LoneReplaced(s: seq<Unit>)
    requires s != [] && (0xD800 <= s[0] < 0xE000)
    requires !(s[0] < 0xDC00 && |s| > 1 && 0xDC00 <= s[1] < 0xE000)
    ensures Utf8(s) == [0xEF, 0xBF, 0xBD] + Utf8(s[1..])
  {
    Utf8Step(s);
    hide Utf8;
  }

  /** `a` and `b` first differ where `a` has the smaller byte. */
  ghost predicate BytesBefore(a: seq<Byte>, b: seq<Byte>) {
    exists i: nat :: i < |a| && i < |b| && a[i] < b[i] && forall j :: 0 <= j < i ==> a[j] == b[j]
  }

  lemma DiffersAt(a: seq<Byte>, b: seq<Byte>, i: nat)
    requires i < |a| && i < |b| && a[i] < b[i] && forall j :: 0 <= j < i ==> a[j] == b[j]
    ensures BytesBefore(a, b)
  {
  }

  lemma LastDigit(v: nat, w: nat)
    requires v < w
    ensures v / 0x40 < w / 0x40 || (v / 0x40 == w / 0x40 && v % 0x40 < w % 0x40)
  {
  }

  lemma DigitsOfDigits(v: nat)
    ensures v / 0x40 / 0x40 == v / 0x1000 && v / 0x1000 / 0x40 == v / 0x40000
  {
  }

  /** Encodings of equal length differ first at the most significant digit that differs. */
  lemma SameLengthOrder(v: Scalar, w: Scalar)
    requires v < w && |EncodeScalar(v)| == |EncodeScalar(w)|
    ensures BytesBefore(EncodeScalar(v), EncodeScalar(w))
  {
    var a, b := EncodeScalar(v), EncodeScalar(w);
    var n := |a|;
    DigitsOfDigits(v);
    DigitsOfDigits(w);
    LastDigit(v, w);
    if n == 1 || v / 0x40 == w / 0x40 { DiffersAt(a, b, n - 1); } else {
      LastDigit(v / 0x40, w / 0x40);
      if n == 2 || v / 0x1000 == w / 0x1000 { DiffersAt(a, b, n - 2); } else {
        LastDigit(v / 0x1000, w / 0x1000);
        DiffersAt(a, b, if n == 3 || v / 0x40000 < w / 0x40000 then 0 else 1);
      }
    }
  }

  lemma FirstByte(v: Scalar)
    ensures var b := EncodeScalar(v);
            match |b| case 1 => b[0] < 0x80 case 2 => 0xC0 <= b[0] < 0xE0 case 3 => 0xE0 <= b[0] < 0xF0 case _ => 0xF0 <= b[0]
    ensures match |EncodeScalar(v)| case 1 => v < 0x80 case 2 => 0x80 <= v < 0x800 case 3 => 0x800 <= v < 0x1_0000 case _ => 0x1_0000 <= v
  {
  }

  /** Encoded scalar values sort as the values do, and none is a prefix of another. */
  lemma OrderKept(v: Scalar, w: Scalar)
    requires v < w
    ensures BytesBefore(EncodeScalar(v), EncodeScalar(w))
  {
    FirstByte(v);
    FirstByte(w);
    hide EncodeScalar;
    if |EncodeScalar(v)| == |EncodeScalar(w)| {
      SameLengthOrder(v, w);
    } else {
      DiffersAt(EncodeScalar(v), EncodeScalar(w), 0);
    }
  }

  /** Three bytes per unit always suffice. */
  lemma {:induction false} Utf8Bound(s: seq<Unit>)
    ensures |s| <= |Utf8(s)| <= 3 * |s|
    decreases |s|
  {
    if s != [] {
      Utf8Step(s);
      Utf8Bound(s[Width(s)..]);
    }
  }

  /** An ASCII prefix is its own encoding and can be split off without cutting a pair. */
  lemma {:induction false} AsciiPrefix(s: seq<Unit>, n: nat)
    requires n <= |s| && forall i :: 0 <= i < n ==> s[i] < 0x80
    ensures Utf8(s) == s[..n] + Utf8(s[n..])
    decreases n
  {
    hide Utf8;
    if n == 0 {
      assert s[0..] == s && s[..0] == [];
    } else {
      var t := s[1..];
      AsciiFirst(s);
      forall i | 0 <= i < n - 1 ensures t[i] < 0x80 { assert t[i] == s[i + 1]; }
      AsciiPrefix(t, n - 1);
      Regroup(s, n, Utf8(s[n..]));
    }
  }

  lemma Regroup(s: seq<Unit>, n: nat, rest: seq<nat>)
    requires 1 <= n <= |s|
    ensures s[1..][n - 1..] == s[n..]
    ensures [s[0]] + (s[1..][..n - 1] + rest) == s[..n] + rest
  {
    assert s[..n] == [s[0]] + s[1..][..n - 1];
  }

  lemma AsciiFirst(s: seq<Unit>)
    requires s != [] && s[0] < 0x80
    ensures Utf8(s) == [s[0]] + Utf8(s[1..])
  {
    Utf8Step(s);
  }

  // ----- The fatal UTF-8 decoder -----

  /** `needed` continuation bytes are still to come, the next one within [lower, upper]. */
  datatype State = State(needed: nat, point: nat, lower: Byte, upper: Byte)

  const START: State := State(0, 0, 0x80, 0xBF)

  datatype Verdict = Continue(state: State) | Emit(value: nat) | Error

  function Step(st: State, b: Byte): Verdict {
    if st.needed == 0 then
      if b < 0x80 then Emit(b)
      else if 0xC2 <= b <= 0xDF then Continue(State(1, b - 0xC0, 0x80, 0xBF))
      else if 0xE0 <= b <= 0xEF then
        Continue(State(2, b - 0xE0, if b == 0xE0 then 0xA0 else 0x80, if b == 0xED then 0x9F else 0xBF))
      else if 0xF0 <= b <= 0xF4 then
        Continue(State(3, b - 0xF0, if b == 0xF0 then 0x90 else 0x80, if b == 0xF4 then 0x8F else 0xBF))
      else Error
    else if !(st.lower <= b <= st.upper) then Error
    else
      var point := st.point * 0x40 + b % 0x40;
      if st.needed == 1 then Emit(point) else Continue(State(st.needed - 1, point, 0x80, 0xBF))
  }

  predicate IsScalar(v: nat) {
    v < 0xD800 || 0xE000 <= v < 0x110000
  }

  /** Decodes from a state to the end of the queue; `None` is a decoding error. */
  function DecodeFrom(st: State, bs: seq<Byte>): Option<seq<nat>>
    decreases |bs|
  {
    if bs == [] then (if st.needed == 0 then Some([]) else None) else
    match Step(st, bs[0])
    case Error => None
    case Continue(st') => DecodeFrom(st', bs[1..])
    case Emit(v) =>
      match DecodeFrom(START, bs[1..])
      case None => None
      case Some(vs) => Some([v] + vs)
  }

  function Prepend(v: nat, r: Option<seq<nat>>): Option<seq<nat>> {
    match r
    case None => None
    case Some(vs) => Some([v] + vs)
  }

  lemma Unfold(st: State, b: Byte, rest: seq<Byte>)
    ensures DecodeFrom(st, [b] + rest) == Resume(Step(st, b), rest)
  {
    assert ([b] + rest)[1..] == rest;
  }

  function Resume(v: Verdict, rest: seq<Byte>): Option<seq<nat>> {
    match v
    case Error => None
    case Continue(st) => DecodeFrom(st, rest)
    case Emit(x) => Prepend(x, DecodeFrom(START, rest))
  }

  lemma DecodeTwo(v: Scalar, rest: seq<Byte>)
    requires 0x80 <= v < 0x800
    ensures DecodeFrom(START, EncodeScalar(v) + rest) == Prepend(v, DecodeFrom(START, rest))
  {
    hide DecodeFrom;
    var b0: Byte, b1: Byte := 0xC0 + v / 0x40, 0x80 + v % 0x40;
    assert EncodeScalar(v) + rest == [b0] + ([b1] + rest);
    Unfold(START, b0, [b1] + rest);
    Unfold(State(1, v / 0x40, 0x80, 0xBF), b1, rest);
  }

  lemma StepThree(h: nat)
    requires h < 0x10
    ensures Step(START, 0xE0 + h) == Continue(State(2, h, if h == 0 then 0xA0 else 0x80, if h == 0xD then 0x9F else 0xBF))
  {
  }

  lemma StepFour(h: nat)
    requires h <= 4
    ensures Step(START, 0xF0 + h) == Continue(State(3, h, if h == 0 then 0x90 else 0x80, if h == 4 then 0x8F else 0xBF))
  {
  }

  /** A continuation byte adds its six bits. */
  lemma StepMore(st: State, k: nat)
    requires k < 0x40 && st.needed > 0 && st.lower <= 0x80 + k <= st.upper
    ensures var p := st.point * 0x40 + k;
            Step(st, 0x80 + k) == if st.needed == 1 then Emit(p) else Continue(State(st.needed - 1, p, 0x80, 0xBF))
  {
    assert (0x80 + k) % 0x40 == k;
  }

  lemma ReadThree(h: nat, m: nat, l: nat, rest: seq<Byte>)
    requires h < 0x10 && m < 0x40 && l < 0x40 && (h == 0 ==> m >= 0x20) && (h == 0xD ==> m < 0x20)
    ensures DecodeFrom(START, [0xE0 + h, 0x80 + m, 0x80 + l] + rest) == Prepend((h * 0x40 + m) * 0x40 + l, DecodeFrom(START, rest))
  {
    hide DecodeFrom, Step;
    var b0: Byte, b1: Byte, b2: Byte := 0xE0 + h, 0x80 + m, 0x80 + l;
    assert [b0, b1, b2] + rest == [b0] + ([b1] + ([b2] + rest));
    StepThree(h);
    Unfold(START, b0, [b1] + ([b2] + rest));
    var st1 := Step(START, b0).state;
    StepMore(st1, m);
    Unfold(st1, b1, [b2] + rest);
    var st2 := State(1, h * 0x40 + m, 0x80, 0xBF);
    StepMore(st2, l);
    Unfold(st2, b2, rest);
  }

  lemma ReadFour(h: nat, k: nat, m: nat, l: nat, rest: seq<Byte>)
    requires h <= 4 && k < 0x40 && m < 0x40 && l < 0x40 && (h == 0 ==> k >= 0x10) && (h == 4 ==> k < 0x10)
    ensures DecodeFrom(START, [0xF0 + h, 0x80 + k, 0x80 + m, 0x80 + l] + rest) ==
            Prepend(((h * 0x40 + k) * 0x40 + m) * 0x40 + l, DecodeFrom(START, rest))
  {
    hide DecodeFrom, Step;
    var b0: Byte, b1: Byte, b2: Byte, b3: Byte := 0xF0 + h, 0x80 + k, 0x80 + m, 0x80 + l;
    assert [b0, b1, b2, b3] + rest == [b0] + ([b1] + ([b2] + ([b3] + rest)));
    StepFour(h);
    Unfold(START, b0, [b1] + ([b2] + ([b3] + rest)));
    var st1 := Step(START, b0).state;
    StepMore(st1, k);
    Unfold(st1, b1, [b2] + ([b3] + rest));
    var st2 := State(2, h * 0x40 + k, 0x80, 0xBF);
    StepMore(st2, m);
    Unfold(st2, b2, [b3] + rest);
    var st3 := State(1, (h * 0x40 + k) * 0x40 + m, 0x80, 0xBF);
    StepMore(st3, l);
    Unfold(st3, b3, rest);
  }

  lemma Digits(v: nat)
    ensures var h, k, m, l := v / 0x40000, v / 0x1000 % 0x40, v / 0x40 % 0x40, v % 0x40;
            && v / 0x1000 == h * 0x40 + k && v / 0x40 == (h * 0x40 + k) * 0x40 + m && v == ((h * 0x40 + k) * 0x40 + m) * 0x40 + l
  {
    var p, q := v / 0x1000, v / 0x40;
    assert p / 0x40 == v / 0x40000;
    assert q / 0x40 == p;
  }

  lemma DecodeThree(v: Scalar, rest: seq<Byte>)
    requires 0x800 <= v < 0x10000
    ensures DecodeFrom(START, EncodeScalar(v) + rest) == Prepend(v, DecodeFrom(START, rest))
  {
    hide DecodeFrom, Step;
    var h, m, l := v / 0x1000, v / 0x40 % 0x40, v % 0x40;
    assert v / 0x40 / 0x40 == h;
    assert v == (h * 0x40 + m) * 0x40 + l;
    ReadThree(h, m, l, rest);
  }

  lemma DecodeFour(v: Scalar, rest: seq<Byte>)
    requires 0x10000 <= v
    ensures DecodeFrom(START, EncodeScalar(v) + rest) == Prepend(v, DecodeFrom(START, rest))
  {
    hide DecodeFrom, Step;
    Digits(v);
    ReadFour(v / 0x40000, v / 0x1000 % 0x40, v / 0x40 % 0x40, v % 0x40, rest);
  }

  /** The decoder reads back one encoded scalar value. */
  lemma DecodeScalar(v: Scalar, rest: seq<Byte>)
    ensures DecodeFrom(START, EncodeScalar(v) + rest) == Prepend(v, DecodeFrom(START, rest))
  {
    if v < 0x80 {
      Unfold(START, v, rest);
    } else if v < 0x800 {
      DecodeTwo(v, rest);
    } else if v < 0x10000 {
      DecodeThree(v, rest);
    } else {
      DecodeFour(v, rest);
    }
  }

  /** Decoding inverts encoding, on every sequence of scalar values. */
  lemma {:induction false} DecodeEncoded(vs: seq<Scalar>)
    ensures DecodeFrom(START, EncodeAll(vs)) == Some(vs)
  {
    if vs != [] {
      DecodeScalar(vs[0], EncodeAll(vs[1..]));
      DecodeEncoded(vs[1..]);
      assert vs == [vs[0]] + vs[1..];
    }
  }

  lemma Head(st: State, bs: seq<Byte>)
    requires DecodeFrom(st, bs).Some? && st.needed > 0
    ensures bs != [] && DecodeFrom(st, bs) == Resume(Step(st, bs[0]), bs[1..]) && !Step(st, bs[0]).Error?
  {
  }

  lemma DecodedTwo(bs: seq<Byte>) returns (v: nat)
    requires bs != [] && 0xC2 <= bs[0] <= 0xDF && DecodeFrom(START, bs).Some?
    ensures IsScalar(v) && |bs| >= 2 && EncodeScalar(v) == bs[..2]
    ensures DecodeFrom(START, bs) == Prepend(v, DecodeFrom(START, bs[2..]))
  {
    var h: nat := bs[0] - 0xC0;
    var st1 := State(1, h, 0x80, 0xBF);
    assert DecodeFrom(START, bs) == DecodeFrom(st1, bs[1..]);
    hide DecodeFrom;
    Head(st1, bs[1..]);
    var l: nat := bs[1] % 0x40;
    v := h * 0x40 + l;
    assert v / 0x40 == h && v % 0x40 == l;
    assert bs[1..][1..] == bs[2..] && bs[..2] == [bs[0], bs[1]];
  }

  lemma DecodedThree(bs: seq<Byte>) returns (v: nat)
    requires bs != [] && 0xE0 <= bs[0] <= 0xEF && DecodeFrom(START, bs).Some?
    ensures IsScalar(v) && |bs| >= 3 && EncodeScalar(v) == bs[..3]
    ensures DecodeFrom(START, bs) == Prepend(v, DecodeFrom(START, bs[3..]))
  {
    var h: nat := bs[0] - 0xE0;
    var st1 := Step(START, bs[0]).state;
    assert DecodeFrom(START, bs) == DecodeFrom(st1, bs[1..]);
    hide DecodeFrom;
    Head(st1, bs[1..]);
    var m: nat := bs[1] % 0x40;
    assert bs[1..][1..] == bs[2..];
    Head(State(1, h * 0x40 + m, 0x80, 0xBF), bs[2..]);
    var l: nat := bs[2] % 0x40;
    assert bs[2..][1..] == bs[3..];
    v := (h * 0x40 + m) * 0x40 + l;
    assert v / 0x40 == h * 0x40 + m && v / 0x1000 == h && v / 0x40 % 0x40 == m && v % 0x40 == l;
    assert bs[..3] == [bs[0], bs[1], bs[2]];
  }

  lemma Compose(h: nat, k: nat, m: nat, l: nat) returns (v: nat)
    requires k < 0x40 && m < 0x40 && l < 0x40
    ensures v == ((h * 0x40 + k) * 0x40 + m) * 0x40 + l
    ensures v / 0x40000 == h && v / 0x1000 % 0x40 == k && v / 0x40 % 0x40 == m && v % 0x40 == l
  {
    v := ((h * 0x40 + k) * 0x40 + m) * 0x40 + l;
    assert v / 0x40 == (h * 0x40 + k) * 0x40 + m;
    assert v / 0x1000 == h * 0x40 + k;
  }

  /** The six payload bits of a continuation byte. */
  lemma Payload(b: Byte) returns (k: nat)
    requires 0x80 <= b <= 0xBF
    ensures k < 0x40 && b == 0x80 + k && b % 0x40 == k
  {
    k := b - 0x80;
  }

  lemma DecodedFour(bs: seq<Byte>) returns (v: nat)
    requires bs != [] && 0xF0 <= bs[0] <= 0xF4 && DecodeFrom(START, bs).Some?
    ensures IsScalar(v) && |bs| >= 4 && EncodeScalar(v) == bs[..4]
    ensures DecodeFrom(START, bs) == Prepend(v, DecodeFrom(START, bs[4..]))
  {
    var h: nat := bs[0] - 0xF0;
    var st1 := Step(START, bs[0]).state;
    assert DecodeFrom(START, bs) == DecodeFrom(st1, bs[1..]);
    hide DecodeFrom;
    Head(st1, bs[1..]);
    var k := Payload(bs[1]);
    assert bs[1..][1..] == bs[2..];
    Head(State(2, h * 0x40 + k, 0x80, 0xBF), bs[2..]);
    var m := Payload(bs[2]);
    assert bs[2..][1..] == bs[3..];
    Head(State(1, (h * 0x40 + k) * 0x40 + m, 0x80, 0xBF), bs[3..]);
    var l := Payload(bs[3]);
    assert bs[3..][1..] == bs[4..];
    v := Compose(h, k, m, l);
    assert bs[..4] == [bs[0], bs[1], bs[2], bs[3]];
  }

  /** The first scalar value of an accepted queue, and its encoding. */
  lemma DecodedFirst(bs: seq<Byte>) returns (v: nat, n: nat)
    requires bs != [] && DecodeFrom(START, bs).Some?
    ensures IsScalar(v) && 1 <= n <= |bs| && EncodeScalar(v) == bs[..n]
    ensures DecodeFrom(START, bs) == Prepend(v, DecodeFrom(START, bs[n..]))
  {
    var b := bs[0];
    if b < 0x80 {
      v, n := b, 1;
    } else if b <= 0xDF {
      v := DecodedTwo(bs);
      n := 2;
    } else if b <= 0xEF {
      v := DecodedThree(bs);
      n := 3;
    } else {
      v := DecodedFour(bs);
      n := 4;
    }
  }

  /** The decoder accepts nothing but encodings. */
  lemma {:induction false} EncodeDecoded(bs: seq<Byte>) returns (vs: seq<Scalar>)
    requires DecodeFrom(START, bs).Some?
    ensures DecodeFrom(START, bs) == Some(vs) && EncodeAll(vs) == bs
    decreases |bs|
  {
    if bs == [] {
      vs := [];
    } else {
      var v, n := DecodedFirst(bs);
      var rest := EncodeDecoded(bs[n..]);
      vs := [v] + rest;
      assert vs[1..] == rest;
      assert bs == bs[..n] + bs[n..];
    }
  }
}

/** The Hybrid Logical Clock of src/hlc.rs: ticking, merging, printing, parsing, ordering. */
module Hlc {
  import opened Base
  import opened Lex

  const U64_MAX: nat := 0xFFFF_FFFF_FFFF_FFFF
  const U16_MAX: nat := 0xFFFF

  type u64 = n: nat | n <= U64_MAX
  type u16 = n: nat | n <= U16_MAX
  type NodeId = s: seq<byte> | |s| == 6 witness [0, 0, 0, 0, 0, 0]

  datatype Hlc = Hlc(physicalMs: u64, logical: u16, nodeId: NodeId)

  // ── Clock order ────────────────────────────────────────────────────────────

  /** Rust's order on byte arrays of one length. */
  predicate BytesBefore(a: Bytes, b: Bytes)
    requires |a| == |b|
  {
    a != [] && (a[0] < b[0] || (a[0] == b[0] && BytesBefore(a[1..], b[1..])))
  }

  /** `Ord::cmp` says Less: compare milliseconds, then the counter, then the node. */
  predicate Less(a: Hlc, b: Hlc) {
    if a.physicalMs != b.physicalMs then a.physicalMs < b.physicalMs
    else if a.logical != b.logical then a.logical < b.logical
    else BytesBefore(a.nodeId, b.nodeId)
  }

  lemma {:induction false} BytesTrichotomy(a: Bytes, b: Bytes)
    requires |a| == |b|
    ensures BytesBefore(a, b) || a == b || BytesBefore(b, a)
    ensures !(BytesBefore(a, b) && BytesBefore(b, a))
    ensures a == b ==> !BytesBefore(a, b)
  {
    if a != [] {
      BytesTrichotomy(a[1..], b[1..]);
      assert a == [a[0]] + a[1..] && b == [b[0]] + b[1..];
    }
  }

  // ── Ticking ────────────────────────────────────────────────────────────────

  /** `u16::saturating_add(1)` */
  function SaturatingIncrement(n: u16): u16 {
    if n == U16_MAX then U16_MAX else n + 1
  }

  function Tick(h: Hlc, wallMs: u64): Hlc {
    var physical := Max(wallMs, h.physicalMs);
    var logical := if physical == h.physicalMs then SaturatingIncrement(h.logical) else 0;
    Hlc(physical, logical, h.nodeId)
  }

  /** A tick is "strictly greater than self" exactly when the wall clock has advanced or the
      counter still has room. */
  lemma TickExceedsExactly(h: Hlc, wallMs: u64)
    ensures Less(h, Tick(h, wallMs)) <==> (h.physicalMs < wallMs || h.logical < U16_MAX)
    ensures wallMs <= Tick(h, wallMs).physicalMs && h.physicalMs <= Tick(h, wallMs).physicalMs
    ensures Tick(h, wallMs).nodeId == h.nodeId
    ensures !Less(Tick(h, wallMs), h)
  {
    BytesTrichotomy(h.nodeId, h.nodeId);
  }

  /** Later in milliseconds and counter, the node aside. */
  predicate Later(a: Hlc, b: Hlc) {
    a.physicalMs > b.physicalMs || (a.physicalMs == b.physicalMs && a.logical > b.logical)
  }

  /** A tick goes no further than it must: no clock that is later than h and not behind the wall
      clock is earlier than the tick. */
  lemma TickIsLeast(h: Hlc, wallMs: u64, x: Hlc)
    requires wallMs <= x.physicalMs && Later(x, h)
    ensures !Later(Tick(h, wallMs), x)
  {
  }

  /** The clock after one tick per wall-clock reading. */
  function TickRun(h: Hlc, walls: seq<u64>): Hlc {
    if walls == [] then h else Tick(TickRun(h, walls[..|walls| - 1]), walls[|walls| - 1])
  }

  /** Every tick of the run exceeds the one before it. */
  ghost predicate StrictRun(h: Hlc, walls: seq<u64>) {
    forall i {:trigger TickRun(h, walls[..i])} :: 0 <= i < |walls| ==>
      Less(TickRun(h, walls[..i]), TickRun(h, walls[..i + 1]))
  }

  lemma TickRunStep(h: Hlc, walls: seq<u64>, i: nat)
    requires i < |walls|
    ensures TickRun(h, walls[..i + 1]) == Tick(TickRun(h, walls[..i]), walls[i])
  {
    assert walls[..i + 1][..i] == walls[..i];
  }

  /** While the wall clock is frozen or behind, the n-th tick holds the physical part still and
      has logical part min(start + n, 65535). */
  lemma {:induction false} StalledRun(h: Hlc, walls: seq<u64>)
    requires forall i :: 0 <= i < |walls| ==> walls[i] <= h.physicalMs
    ensures TickRun(h, walls) == Hlc(h.physicalMs, Min(h.logical + |walls|, U16_MAX), h.nodeId)
  {
    if walls != [] {
      StalledRun(h, walls[..|walls| - 1]);
    }
  }

  /** A stalled run is strictly increasing exactly until the counter's room is used up. */
  lemma StalledRunStrictExactly(h: Hlc, walls: seq<u64>)
    requires forall i :: 0 <= i < |walls| ==> walls[i] <= h.physicalMs
    ensures StrictRun(h, walls) <==> |walls| <= U16_MAX - h.logical
  {
    forall i | 0 <= i <= |walls|
      ensures TickRun(h, walls[..i]) == Hlc(h.physicalMs, Min(h.logical + i, U16_MAX), h.nodeId)
    {
      StalledRun(h, walls[..i]);
    }
    BytesTrichotomy(h.nodeId, h.nodeId);
    if |walls| > U16_MAX - h.logical {
      var i := U16_MAX - h.logical;
      assert !Less(TickRun(h, walls[..i]), TickRun(h, walls[..i + 1]));
    }
  }

  /** The milliseconds reached after the readings. */
  function LatestMs(h: Hlc, walls: seq<u64>): u64 {
    if walls == [] then h.physicalMs else Max(walls[|walls| - 1], LatestMs(h, walls[..|walls| - 1]))
  }

  /** The count the ticks ask for: it starts over whenever the wall clock advances. */
  function Used(h: Hlc, walls: seq<u64>): nat {
    if walls == [] then h.logical
    else
      var before := walls[..|walls| - 1];
      if walls[|walls| - 1] > LatestMs(h, before) then 0 else Used(h, before) + 1
  }

  /** The counter never has to hold more than it can. */
  ghost predicate HasRoom(h: Hlc, walls: seq<u64>) {
    forall i :: 0 <= i <= |walls| ==> Used(h, walls[..i]) <= U16_MAX
  }

  /** Whatever the wall clock reads, a run of ticks reaches the latest milliseconds, with the count
      asked for, up to 65535. */
  lemma {:induction false} TickRunReaches(h: Hlc, walls: seq<u64>)
    ensures TickRun(h, walls) == Hlc(LatestMs(h, walls), Min(Used(h, walls), U16_MAX), h.nodeId)
  {
    if walls != [] { TickRunReaches(h, walls[..|walls| - 1]); }
  }

  /** The wall clock has advanced, or the counter has room for one more. */
  predicate TickFits(h: Hlc, walls: seq<u64>, i: nat)
    requires i < |walls|
  {
    walls[i] > LatestMs(h, walls[..i]) || Used(h, walls[..i]) < U16_MAX
  }

  lemma TickFitsExactly(h: Hlc, walls: seq<u64>, i: nat)
    requires i < |walls|
    ensures Less(TickRun(h, walls[..i]), TickRun(h, walls[..i + 1])) <==> TickFits(h, walls, i)
    ensures Used(h, walls[..i]) <= U16_MAX ==> (TickFits(h, walls, i) <==> Used(h, walls[..i + 1]) <= U16_MAX)
  {
    TickRunReaches(h, walls[..i]);
    TickRunStep(h, walls, i);
    TickExceedsExactly(TickRun(h, walls[..i]), walls[i]);
    assert walls[..i + 1][..i] == walls[..i];
  }

  lemma {:induction false} FittingHasRoom(h: Hlc, walls: seq<u64>, n: nat)
    requires n <= |walls| && forall i :: 0 <= i < |walls| ==> TickFits(h, walls, i)
    ensures forall i :: 0 <= i <= n ==> Used(h, walls[..i]) <= U16_MAX
  {
    if n > 0 {
      FittingHasRoom(h, walls, n - 1);
      TickFitsExactly(h, walls, n - 1);
    }
  }

  /** For any readings, frozen, backward or advancing now and then, the ticks of a run are strictly
      increasing exactly when no stretch without an advance outgrows the counter. */
  lemma RunStrictExactly(h: Hlc, walls: seq<u64>)
    ensures StrictRun(h, walls) <==> HasRoom(h, walls)
  {
    if StrictRun(h, walls) {
      forall i | 0 <= i < |walls| ensures TickFits(h, walls, i) {
        assert Less(TickRun(h, walls[..i]), TickRun(h, walls[..i + 1]));
        TickFitsExactly(h, walls, i);
      }
      FittingHasRoom(h, walls, |walls|);
    } else {
      var i :| 0 <= i < |walls| && !Less(TickRun(h, walls[..i]), TickRun(h, walls[..i + 1]));
      TickFitsExactly(h, walls, i);
      assert Used(h, walls[..i]) > U16_MAX || Used(h, walls[..i + 1]) > U16_MAX;
    }
  }

  // ── Merging ────────────────────────────────────────────────────────────────

  function Merge(h: Hlc, remote: Hlc, wallMs: u64): Hlc {
    var physical := Max(Max(wallMs, h.physicalMs), remote.physicalMs);
    var logical :=
      if physical == h.physicalMs && physical == remote.physicalMs then
        SaturatingIncrement(Max(h.logical, remote.logical))
      else if physical == h.physicalMs then SaturatingIncrement(h.logical)
      else if physical == remote.physicalMs then SaturatingIncrement(remote.logical)
      else 0;
    Hlc(physical, logical, h.nodeId)
  }

  /** A clock whose millisecond is the latest and whose counter is full. */
  predicate Exhausted(h: Hlc, latestMs: u64) {
    h.physicalMs == latestMs && h.logical == U16_MAX
  }

  /** A merge exceeds each input exactly when that input is not exhausted at the latest of the three
      milliseconds; an exhausted remote is still exceeded when its node orders below ours. */
  lemma MergeExceedsExactly(h: Hlc, remote: Hlc, wallMs: u64)
    ensures var m, latest := Merge(h, remote, wallMs), Max(Max(wallMs, h.physicalMs), remote.physicalMs);
      && (Less(h, m) <==> !Exhausted(h, latest))
      && (Less(remote, m) <==> (Exhausted(remote, latest) ==> BytesBefore(remote.nodeId, h.nodeId)))
      && m.physicalMs == latest && m.nodeId == h.nodeId
  {
    BytesTrichotomy(h.nodeId, h.nodeId);
  }

  /** Nor does a merge: no clock that is later than both and not behind the wall clock is earlier. */
  lemma MergeIsLeast(h: Hlc, remote: Hlc, wallMs: u64, x: Hlc)
    requires wallMs <= x.physicalMs && Later(x, h) && Later(x, remote)
    ensures !Later(Merge(h, remote, wallMs), x)
  {
  }

  // ── Printing ───────────────────────────────────────────────────────────────

  type HexDigit = n: nat | n < 16

  function Digit(n: HexDigit): (c: char)
    ensures c != '-' && c != '+' && '-' < c
    ensures c == "0123456789abcdef"[n]
  {
    if n < 10 then '0' + n as char else 'a' + (n - 10) as char
  }

  function Pow16(w: nat): (p: nat)
    ensures p >= 1
  {
    if w == 0 then 1 else 16 * Pow16(w - 1)
  }

  /** The number of hexadecimal digits of n, at least one. */
  function Digits(n: nat): (w: nat)
    ensures w >= 1
  {
    if n < 16 then 1 else 1 + Digits(n / 16)
  }

  /** The w lowest hexadecimal digits of n. */
  function Hex(n: nat, w: nat): (s: string)
    ensures |s| == w
    ensures forall i :: 0 <= i < |s| ==> s[i] != '-' && s[i] != '+' && '-' < s[i]
  {
    if w == 0 then "" else Hex(n / 16, w - 1) + [Digit(n % 16)]
  }

  /** `format!("{n:0wx}")`: padded to w digits, longer when n needs more. */
  function Padded(n: nat, w: nat): string {
    Hex(n, Max(w, Digits(n)))
  }

  function HexEncode(bytes: Bytes): (s: string)
    ensures |s| == 2 * |bytes|
  {
    if bytes == [] then "" else Hex(bytes[0] as nat, 2) + HexEncode(bytes[1..])
  }

  /** The printed form from the second dash on. */
  function NodeText(h: Hlc): string {
    "-" + HexEncode(h.nodeId)
  }

  /** The printed form from the first dash on. */
  function Tail(h: Hlc): string {
    "-" + (Padded(h.logical, 4) + NodeText(h))
  }

  function ToString(h: Hlc): string {
    Padded(h.physicalMs, 13) + Tail(h)
  }

  // ── Parsing ────────────────────────────────────────────────────────────────

  /** `char::to_digit(16)`, which accepts both letter cases. */
  function DigitValue(c: char): Option<HexDigit> {
    if '0' <= c <= '9' then Some(c as int - '0' as int)
    else if 'a' <= c <= 'f' then Some(c as int - 'a' as int + 10)
    else if 'A' <= c <= 'F' then Some(c as int - 'A' as int + 10)
    else None
  }

  function DigitsValue(s: string): Option<nat> {
    if s == "" then Some(0)
    else
      var front, last := DigitsValue(s[..|s| - 1]), DigitValue(s[|s| - 1]);
      if front.Some? && last.Some? then Some(16 * front.value + last.value) else None
  }

  /** `from_str_radix(s, 16)` of an unsigned type with largest value max: one leading plus sign
      is allowed, no digits at all or a value out of range is an error. */
  function ParseHex(s: string, max: nat): Option<nat> {
    var digits := if s != "" && s[0] == '+' then s[1..] else s;
    if digits == "" then None
    else
      var v := DigitsValue(digits);
      if v.Some? && v.value <= max then v else None
  }

  /** The index of the first dash, or the length. */
  function DashAt(s: string): (i: nat)
    ensures i <= |s|
    ensures i < |s| ==> s[i] == '-'
    ensures forall j :: 0 <= j < i ==> s[j] != '-'
  {
    if s == "" || s[0] == '-' then 0 else 1 + DashAt(s[1..])
  }

  function HexDecode(s: string): Option<Bytes> {
    if |s| == 0 then Some([])
    else if |s| == 1 then None
    else
      var first, rest := ParseHex(s[..2], 255), HexDecode(s[2..]);
      if first.Some? && rest.Some? then Some([first.value as byte] + rest.value) else None
  }

  /** `splitn(3, '-')`: the third part keeps any further dashes. */
  function FromString(s: string): Option<Hlc> {
    var i := DashAt(s);
    if i == |s| then None
    else
      var rest := s[i + 1..];
      var j := DashAt(rest);
      if j == |rest| then None
      else
        var physical := ParseHex(s[..i], U64_MAX);
        var logical := ParseHex(rest[..j], U16_MAX);
        var node := HexDecode(rest[j + 1..]);
        if physical.Some? && logical.Some? && node.Some? && |node.value| == 6 then
          Some(Hlc(physical.value, logical.value, node.value))
        else None
  }

  // ── Printing and parsing are inverse ───────────────────────────────────────

  lemma {:induction false} DigitsFit(n: nat, w: nat)
    ensures n < Pow16(Digits(n))
    ensures Digits(n) <= w && w >= 1 ==> n < Pow16(w)
    ensures w >= 1 && n < Pow16(w) ==> Digits(n) <= w
    decreases w
  {
    if n >= 16 {
      if w > 0 { DigitsFit(n / 16, w - 1); } else { DigitsFitAlone(n); }
      DigitsFitAlone(n);
    } else if w > 0 {
      assert Pow16(w) == 16 * Pow16(w - 1);
    }
  }

  lemma {:induction false} DigitsFitAlone(n: nat)
    ensures n < Pow16(Digits(n))
  {
    if n >= 16 { DigitsFitAlone(n / 16); }
  }

  lemma {:induction false} HexValue(n: nat, w: nat)
    requires n < Pow16(w)
    ensures DigitsValue(Hex(n, w)) == Some(n)
  {
    if w > 0 {
      HexValue(n / 16, w - 1);
      var s := Hex(n, w);
      assert s[..w - 1] == Hex(n / 16, w - 1);
      assert DigitValue(s[w - 1]) == Some(n % 16);
    }
  }

  lemma PaddedParses(n: nat, w: nat, max: nat)
    requires n <= max
    ensures ParseHex(Padded(n, w), max) == Some(n)
  {
    var width := Max(w, Digits(n));
    DigitsFit(n, width);
    HexValue(n, width);
  }

  lemma {:induction false} HexDecodeEncode(bytes: Bytes)
    ensures HexDecode(HexEncode(bytes)) == Some(bytes)
  {
    if bytes != [] {
      HexDecodeEncode(bytes[1..]);
      var s := HexEncode(bytes);
      assert s[..2] == Hex(bytes[0] as nat, 2) && s[2..] == HexEncode(bytes[1..]);
      assert Pow16(2) == 16 * Pow16(1) && Pow16(1) == 16;
      HexValue(bytes[0] as nat, 2);
      assert bytes == [bytes[0]] + bytes[1..];
    }
  }

  lemma {:induction false} DashAfter(p: string, rest: string)
    requires forall i :: 0 <= i < |p| ==> p[i] != '-'
    requires rest != "" && rest[0] == '-'
    ensures DashAt(p + rest) == |p|
    ensures (p + rest)[..|p|] == p && (p + rest)[|p| + 1..] == rest[1..]
  {
    if p == "" {
      assert p + rest == rest;
    } else {
      DashAfter(p[1..], rest);
      assert (p + rest)[1..] == p[1..] + rest;
    }
  }

  /** Every HLC, including those whose milliseconds need more than 13 digits, survives printing
      and parsing. */
  lemma RoundTrip(h: Hlc)
    ensures FromString(ToString(h)) == Some(h)
  {
    var p, l := Padded(h.physicalMs, 13), Padded(h.logical, 4);
    DashAfter(p, Tail(h));
    assert Tail(h)[1..] == l + NodeText(h);
    DashAfter(l, NodeText(h));
    assert NodeText(h)[1..] == HexEncode(h.nodeId);
    PaddedParses(h.physicalMs, 13, U64_MAX);
    PaddedParses(h.logical, 4, U16_MAX);
    HexDecodeEncode(h.nodeId);
  }

  /** The printed form of a clock in range: thirteen digits, four and twelve, between dashes. */
  lemma PrintedShape(h: Hlc)
    requires InRange(h)
    ensures |ToString(h)| == 31
    ensures forall i :: 0 <= i < 31 ==>
      if i == 13 || i == 18 then ToString(h)[i] == '-' else ToString(h)[i] in "0123456789abcdef"
  {
    InRangeWidth(h);
    LogicalWidth(h.logical);
    HexShape(h.physicalMs, 13);
    HexShape(h.logical, 4);
    BytesShape(h.nodeId);
    var s := ToString(h);
    assert s == Hex(h.physicalMs, 13) + "-" + Hex(h.logical, 4) + "-" + HexEncode(h.nodeId);
  }

  lemma {:induction false} HexShape(n: nat, w: nat)
    ensures forall c :: c in Hex(n, w) ==> c in "0123456789abcdef"
  {
    if w > 0 {
      HexShape(n / 16, w - 1);
      assert "0123456789abcdef"[n % 16] in "0123456789abcdef";
    }
  }

  lemma {:induction false} BytesShape(bytes: Bytes)
    ensures forall c :: c in HexEncode(bytes) ==> c in "0123456789abcdef"
  {
    if bytes != [] {
      HexShape(bytes[0] as nat, 2);
      BytesShape(bytes[1..]);
    }
  }

  /** What parses, exactly: three parts between the first two dashes and after them, the first two
      hexadecimal numbers in range, the third twelve characters of hexadecimal bytes. */
  lemma ParsesExactly(s: string, h: Hlc)
    ensures FromString(s) == Some(h) <==>
      exists p, l, n :: s == p + "-" + l + "-" + n && ParsedParts(p, l, n, h)
  {
    if FromString(s) == Some(h) { ParsedHasParts(s, h); }
    if p, l, n :| s == p + "-" + l + "-" + n && ParsedParts(p, l, n, h) { PartsParse(p, l, n, h); }
  }

  lemma ParsedHasParts(s: string, h: Hlc)
    requires FromString(s) == Some(h)
    ensures exists p, l, n :: s == p + "-" + l + "-" + n && ParsedParts(p, l, n, h)
  {
    var i := DashAt(s);
    var rest := s[i + 1..];
    SplitsAtDash(s);
    SplitsAtDash(rest);
    HexDecodeLength(rest[DashAt(rest) + 1..]);
    HasParts(s, h, s[..i], rest, rest[..DashAt(rest)], rest[DashAt(rest) + 1..]);
  }

  lemma HasParts(s: string, h: Hlc, p: string, rest: string, l: string, n: string)
    requires s == p + "-" + rest && rest == l + "-" + n && ParsedParts(p, l, n, h)
    ensures exists p, l, n :: s == p + "-" + l + "-" + n && ParsedParts(p, l, n, h)
  {
    assert s == p + "-" + l + "-" + n;
  }

  lemma SplitsAtDash(s: string)
    requires DashAt(s) < |s|
    ensures s == s[..DashAt(s)] + "-" + s[DashAt(s) + 1..] && '-' !in s[..DashAt(s)]
  {
    SplitsAt(s, DashAt(s));
  }

  lemma SplitsAt(s: string, i: nat)
    requires i < |s| && s[i] == '-' && forall j :: 0 <= j < i ==> s[j] != '-'
    ensures s == s[..i] + "-" + s[i + 1..] && '-' !in s[..i]
  {
    assert s[i..] == "-" + s[i + 1..];
  }

  lemma PartsParse(p: string, l: string, n: string, h: Hlc)
    requires ParsedParts(p, l, n, h)
    ensures FromString(p + "-" + l + "-" + n) == Some(h)
  {
    var s, rest := p + "-" + l + "-" + n, l + ("-" + n);
    assert s == p + ("-" + rest) && ("-" + rest)[1..] == rest;
    DashAfter(p, "-" + rest);
    DashAfter(l, "-" + n);
    assert ("-" + n)[1..] == n;
  }

  ghost predicate ParsedParts(p: string, l: string, n: string, h: Hlc) {
    && '-' !in p && '-' !in l && |n| == 12
    && ParseHex(p, 0xFFFF_FFFF_FFFF_FFFF) == Some(h.physicalMs) && ParseHex(l, 0xFFFF) == Some(h.logical)
    && HexDecode(n) == Some(h.nodeId)
  }

  function LowerHex(c: char): char {
    if 'A' <= c <= 'F' then 'a' + (c - 'A') else c
  }

  function LowerText(s: string): (r: string)
    ensures |r| == |s|
  {
    if s == "" then "" else LowerText(s[..|s| - 1]) + [LowerHex(s[|s| - 1])]
  }

  /** A number parses exactly from its digits in either letter case, with leading zeros or without,
      and with a plus sign before them or without. */
  lemma ParseHexExactly(s: string, max: nat, n: nat)
    ensures ParseHex(s, max) == Some(n) <==>
      n <= max && exists d :: d != "" && (s == d || s == "+" + d) && DigitsOf(d, n)
  {
    var digits := if s != "" && s[0] == '+' then s[1..] else s;
    DigitsExactly(digits, n);
    assert s == digits || s == "+" + digits;
    forall d | d != "" && (s == d || s == "+" + d) && DigitsOf(d, n) ensures d == digits {
      assert d[0] != '+' by {
        DigitsExactly(d, n);
        FirstIsDigit(d);
      }
    }
  }

  predicate DigitsOf(d: string, n: nat) { n < Pow16(|d|) && LowerText(d) == Hex(n, |d|) }

  lemma DigitExactly(c: char, v: HexDigit)
    ensures DigitValue(c) == Some(v) <==> LowerHex(c) == Digit(v)
  {
    assert Digit(v) == if v < 10 then '0' + v as char else 'a' + (v - 10) as char;
  }

  lemma AppendedEqual(a: string, b: string, x: char, y: char)
    requires |a| == |b|
    ensures a + [x] == b + [y] <==> a == b && x == y
  {
    if a + [x] == b + [y] {
      assert (a + [x])[..|a|] == a && (b + [y])[..|a|] == b;
      assert (a + [x])[|a|] == x && (b + [y])[|a|] == y;
    }
  }

  lemma LastDigit(d: string, n: nat)
    requires d != ""
    ensures DigitsValue(d) == Some(n) <==>
      DigitsValue(d[..|d| - 1]) == Some(n / 16) && DigitValue(d[|d| - 1]) == Some(n % 16)
  {
  }

  lemma BelowPow16(n: nat, w: nat)
    requires w > 0
    ensures n < Pow16(w) <==> n / 16 < Pow16(w - 1)
  {
  }

  lemma {:induction false} DigitsExactly(d: string, n: nat)
    ensures DigitsValue(d) == Some(n) <==> DigitsOf(d, n)
  {
    if d != "" {
      var front, c := d[..|d| - 1], d[|d| - 1];
      DigitsExactly(front, n / 16);
      LastDigit(d, n);
      DigitExactly(c, n % 16);
      AppendedEqual(LowerText(front), Hex(n / 16, |front|), LowerHex(c), Digit(n % 16));
      BelowPow16(n, |d|);
    }
  }

  lemma {:induction false} FirstIsDigit(d: string)
    requires d != "" && DigitsValue(d).Some?
    ensures DigitValue(d[0]).Some?
  {
    if |d| > 1 { FirstIsDigit(d[..|d| - 1]); }
  }

  lemma {:induction false} HexDecodeLength(s: string)
    ensures HexDecode(s).Some? ==> |s| == 2 * |HexDecode(s).value|
  {
    if |s| > 1 { HexDecodeLength(s[2..]); }
  }

  /** Distinct clocks print differently; in particular stamps of two nodes never collide. */
  lemma PrintsDistinctly(a: Hlc, b: Hlc)
    ensures ToString(a) == ToString(b) <==> a == b
  {
    RoundTrip(a);
    RoundTrip(b);
  }

  /** The counter after a tick. */
  function TickCounter(h: Hlc, wallMs: u64): u16 {
    if wallMs <= h.physicalMs then SaturatingIncrement(h.logical) else 0
  }

  /** Two ticks print one stamp exactly when they are made by one node at one resulting millisecond
      with one resulting counter. */
  lemma TicksCollideExactly(g: Hlc, wallG: u64, h: Hlc, wallH: u64)
    ensures ToString(Tick(g, wallG)) == ToString(Tick(h, wallH)) <==>
      && g.nodeId == h.nodeId && Max(wallG, g.physicalMs) == Max(wallH, h.physicalMs)
      && TickCounter(g, wallG) == TickCounter(h, wallH)
  {
    PrintsDistinctly(Tick(g, wallG), Tick(h, wallH));
  }

  // ── String order against clock order ───────────────────────────────────────

  /** Two numbers printed with one width compare as numbers, and what follows breaks a tie. */
  lemma {:induction false} HexOrder(n: nat, m: nat, w: nat, s: string, t: string)
    requires n < Pow16(w) && m < Pow16(w)
    ensures Before(Hex(n, w) + s, Hex(m, w) + t) <==> n < m || (n == m && Before(s, t))
  {
    if w == 0 {
      assert Hex(n, w) + s == s && Hex(m, w) + t == t;
    } else {
      var dn, dm := Digit(n % 16), Digit(m % 16);
      var s', t' := [dn] + s, [dm] + t;
      assert Hex(n, w) + s == Hex(n / 16, w - 1) + s';
      assert Hex(m, w) + t == Hex(m / 16, w - 1) + t';
      HexOrder(n / 16, m / 16, w - 1, s', t');
      assert s'[1..] == s && t'[1..] == t;
    }
  }

  lemma {:induction false} NodeOrder(a: Bytes, b: Bytes)
    requires |a| == |b|
    ensures Before(HexEncode(a), HexEncode(b)) <==> BytesBefore(a, b)
  {
    if a != [] {
      assert Pow16(2) == 16 * Pow16(1) && Pow16(1) == 16;
      HexOrder(a[0] as nat, b[0] as nat, 2, HexEncode(a[1..]), HexEncode(b[1..]));
      NodeOrder(a[1..], b[1..]);
    }
  }

  /** What follows the milliseconds orders as counter and node do. */
  lemma TailOrder(a: Hlc, b: Hlc)
    ensures Before(Tail(a), Tail(b)) <==>
      a.logical < b.logical || (a.logical == b.logical && BytesBefore(a.nodeId, b.nodeId))
  {
    LogicalWidth(a.logical);
    LogicalWidth(b.logical);
    CommonPrefix("-", HexEncode(a.nodeId), HexEncode(b.nodeId));
    NodeOrder(a.nodeId, b.nodeId);
    HexOrder(a.logical, b.logical, 4, NodeText(a), NodeText(b));
    CommonPrefix("-", Padded(a.logical, 4) + NodeText(a), Padded(b.logical, 4) + NodeText(b));
  }

  lemma LogicalWidth(n: u16)
    ensures n < Pow16(4) && Padded(n, 4) == Hex(n, 4)
  {
    assert Pow16(4) == 0x1_0000 by { assert Pow16(2) == 256; assert Pow16(3) == 4096; }
    DigitsFit(n, 4);
  }

  /** The printed width of the milliseconds. */
  function PhysicalWidth(h: Hlc): (w: nat)
    ensures w >= 13
  {
    Max(13, Digits(h.physicalMs))
  }

  /** n without its last `drop` hexadecimal digits. */
  function Leading(n: nat, drop: nat): nat {
    if drop == 0 then n else Leading(n / 16, drop - 1)
  }

  lemma {:induction false} HexSplit(n: nat, w: nat, drop: nat)
    requires drop <= w
    ensures Hex(n, w) == Hex(Leading(n, drop), w - drop) + Hex(n, drop)
    decreases drop
  {
    if drop > 0 {
      HexSplit(n / 16, w - 1, drop - 1);
    } else {
      assert Leading(n, 0) == n;
      assert Hex(n, w) + "" == Hex(n, w);
    }
  }

  lemma {:induction false} LeadingFits(n: nat, w: nat, drop: nat)
    requires drop <= w && n < Pow16(w)
    ensures Leading(n, drop) < Pow16(w - drop)
    decreases drop
  {
    if drop > 0 {
      assert n / 16 < Pow16(w - 1);
      LeadingFits(n / 16, w - 1, drop - 1);
    } else {
      assert Leading(n, 0) == n;
    }
  }

  lemma {:induction false} DigitsMonotone(n: nat, m: nat)
    requires n <= m
    ensures Digits(n) <= Digits(m)
  {
    if m >= 16 && n >= 16 { DigitsMonotone(n / 16, m / 16); }
  }

  /** The narrower printed milliseconds do not exceed the leading digits of the wider ones.
      Trivially true when both print with the same width. */
  predicate Aligned(a: Hlc, b: Hlc) {
    var (lo, hi) := if a.physicalMs <= b.physicalMs then (a, b) else (b, a);
    PhysicalWidth(lo) < PhysicalWidth(hi) ==>
      lo.physicalMs <= Leading(hi.physicalMs, PhysicalWidth(hi) - PhysicalWidth(lo))
  }

  lemma OrderAtEqualWidth(a: Hlc, b: Hlc)
    requires PhysicalWidth(a) == PhysicalWidth(b)
    ensures Before(ToString(a), ToString(b)) <==> Less(a, b)
  {
    var w := PhysicalWidth(a);
    DigitsFit(a.physicalMs, w);
    DigitsFit(b.physicalMs, w);
    HexOrder(a.physicalMs, b.physicalMs, w, Tail(a), Tail(b));
    TailOrder(a, b);
  }

  lemma OrderAcrossWidths(lo: Hlc, hi: Hlc)
    requires PhysicalWidth(lo) < PhysicalWidth(hi)
    ensures lo.physicalMs < hi.physicalMs
    ensures Before(ToString(lo), ToString(hi)) <==> Aligned(lo, hi)
    ensures Before(ToString(hi), ToString(lo)) <==> !Aligned(lo, hi)
  {
    if hi.physicalMs <= lo.physicalMs { DigitsMonotone(hi.physicalMs, lo.physicalMs); }
    var w := PhysicalWidth(lo);
    var drop := PhysicalWidth(hi) - w;
    var lead, rest := Leading(hi.physicalMs, drop), Hex(hi.physicalMs, drop) + Tail(hi);
    DigitsFit(lo.physicalMs, w);
    WiderText(hi, drop);
    HexOrder(lo.physicalMs, lead, w, Tail(lo), rest);
    HexOrder(lead, lo.physicalMs, w, rest, Tail(lo));
    DashComesFirst(lo, hi.physicalMs, drop, Tail(hi));
  }

  /** A text that goes on with a dash comes before one that goes on with a digit. */
  lemma DashComesFirst(h: Hlc, n: nat, drop: nat, t: string)
    requires drop > 0
    ensures Before(Tail(h), Hex(n, drop) + t) && !Before(Hex(n, drop) + t, Tail(h))
  {
    var rest := Hex(n, drop) + t;
    assert rest[0] == Hex(n, drop)[0];
    assert Tail(h)[0] == '-' < rest[0];
  }

  /** The text of a clock, seen as the leading digits followed by the others. */
  lemma WiderText(h: Hlc, drop: nat)
    requires drop <= PhysicalWidth(h)
    ensures Leading(h.physicalMs, drop) < Pow16(PhysicalWidth(h) - drop)
    ensures ToString(h) ==
      Hex(Leading(h.physicalMs, drop), PhysicalWidth(h) - drop) + (Hex(h.physicalMs, drop) + Tail(h))
  {
    DigitsFit(h.physicalMs, PhysicalWidth(h));
    SplitText(h.physicalMs, PhysicalWidth(h), drop, Tail(h));
  }

  lemma SplitText(n: nat, w: nat, drop: nat, tail: string)
    requires drop <= w && n < Pow16(w)
    ensures Leading(n, drop) < Pow16(w - drop)
    ensures Hex(n, w) + tail == Hex(Leading(n, drop), w - drop) + (Hex(n, drop) + tail)
  {
    LeadingFits(n, w, drop);
    HexSplit(n, w, drop);
    Concat(Hex(Leading(n, drop), w - drop), Hex(n, drop), tail);
  }

  lemma Concat(a: string, b: string, c: string)
    ensures (a + b) + c == a + (b + c)
  {
  }

  /** Printed order agrees with clock order for a pair of clocks exactly when their milliseconds
      are aligned. */
  lemma StringOrderExactly(a: Hlc, b: Hlc)
    ensures (Before(ToString(a), ToString(b)) <==> Less(a, b)) &&
            (Before(ToString(b), ToString(a)) <==> Less(b, a))
            <==> Aligned(a, b)
  {
    if PhysicalWidth(a) == PhysicalWidth(b) {
      OrderAtEqualWidth(a, b);
      OrderAtEqualWidth(b, a);
    } else if PhysicalWidth(a) < PhysicalWidth(b) {
      OrderAcrossWidths(a, b);
      LessOneWay(a, b);
    } else {
      OrderAcrossWidths(b, a);
      LessOneWay(b, a);
    }
  }

  lemma LessOneWay(lo: Hlc, hi: Hlc)
    requires lo.physicalMs < hi.physicalMs
    ensures Less(lo, hi) && !Less(hi, lo) && (Aligned(lo, hi) <==> Aligned(hi, lo))
  {
  }

  /** Thirteen digits are enough for the milliseconds. */
  predicate InRange(h: Hlc) {
    h.physicalMs < 0x10_0000_0000_0000
  }

  lemma InRangeWidth(h: Hlc)
    ensures InRange(h) <==> PhysicalWidth(h) == 13
  {
    assert Pow16(13) == 0x10_0000_0000_0000 by {
      assert Pow16(4) == 0x1_0000 by { assert Pow16(2) == 256; }
      assert Pow16(8) == 0x1_0000_0000 by { assert Pow16(6) == 0x100_0000; }
      assert Pow16(12) == 0x1_0000_0000_0000 by { assert Pow16(10) == 0x100_0000_0000; }
    }
    DigitsFit(h.physicalMs, 13);
  }

  /** Below 2^52 milliseconds the printed form is lexicographically sortable, as documented. */
  lemma StringOrderInRange(a: Hlc, b: Hlc)
    requires InRange(a) && InRange(b)
    ensures Before(ToString(a), ToString(b)) <==> Less(a, b)
    ensures ToString(a) == ToString(b) <==> a == b
  {
    InRangeWidth(a);
    InRangeWidth(b);
    OrderAtEqualWidth(a, b);
    PrintsDistinctly(a, b);
  }

  /** The bound is tight: whatever their counters and nodes, a clock at the last 13-digit
      millisecond prints above a clock at the first 14-digit one. */
  lemma StringOrderBoundTight(a: Hlc, b: Hlc)
    requires a.physicalMs == 0xF_FFFF_FFFF_FFFF && b.physicalMs == a.physicalMs + 1
    ensures Less(a, b) && Before(ToString(b), ToString(a))
  {
    InRangeWidth(a);
    FirstWideWidth(b);
    OneDigitMore(a, b);
  }

  lemma FirstWideWidth(b: Hlc)
    requires b.physicalMs == 0x10_0000_0000_0000
    ensures PhysicalWidth(b) == 14
  {
    InRangeWidth(b);
    InRangeWidth(Hlc(b.physicalMs / 16, 0, b.nodeId));
    LeadingOne(b.physicalMs);
  }

  /** A clock one digit wider prints below when its leading digits are the smaller number. */
  lemma OneDigitMore(lo: Hlc, hi: Hlc)
    requires PhysicalWidth(hi) == PhysicalWidth(lo) + 1 && hi.physicalMs / 16 < lo.physicalMs
    ensures Less(lo, hi) && Before(ToString(hi), ToString(lo))
  {
    LeadingOne(hi.physicalMs);
    OrderAcrossWidths(lo, hi);
  }

  lemma LeadingOne(n: nat)
    ensures Leading(n, 1) == n / 16
    ensures Digits(n / 16) <= 13 ==> Digits(n) <= 14
  {
    assert Leading(n / 16, 0) == n / 16;
  }

  /** The stamp of a device's i-th write. */
  function StampAt(h: Hlc, walls: seq<u64>, i: nat): string
    requires i <= |walls|
  {
    ToString(TickRun(h, walls[..i]))
  }

  /** The stamps one device writes, in the order it writes them, ascend as text exactly when its
      counter has room. */
  lemma StampsAscendExactly(h: Hlc, walls: seq<u64>)
    requires InRange(TickRun(h, walls))
    ensures (forall i, j :: 0 <= i < j <= |walls| ==> Before(StampAt(h, walls, i), StampAt(h, walls, j))) <==>
      HasRoom(h, walls)
  {
    RunStrictExactly(h, walls);
    forall i | 0 <= i < |walls|
      ensures Before(StampAt(h, walls, i), StampAt(h, walls, i + 1)) <==>
        Less(TickRun(h, walls[..i]), TickRun(h, walls[..i + 1]))
    {
      NextStampAscends(h, walls, i);
    }
    if HasRoom(h, walls) {
      forall i, j | 0 <= i < j <= |walls| ensures Before(StampAt(h, walls, i), StampAt(h, walls, j)) {
        StepsAscend(h, walls, i, j);
      }
    }
  }

  lemma NextStampAscends(h: Hlc, walls: seq<u64>, i: nat)
    requires i < |walls| && InRange(TickRun(h, walls))
    ensures Before(StampAt(h, walls, i), StampAt(h, walls, i + 1)) <==>
      Less(TickRun(h, walls[..i]), TickRun(h, walls[..i + 1]))
  {
    RunInRange(h, walls, i);
    RunInRange(h, walls, i + 1);
    StringOrderInRange(TickRun(h, walls[..i]), TickRun(h, walls[..i + 1]));
  }

  lemma {:induction false} StepsAscend(h: Hlc, walls: seq<u64>, i: nat, j: nat)
    requires i < j <= |walls|
    requires forall k :: 0 <= k < |walls| ==> Before(StampAt(h, walls, k), StampAt(h, walls, k + 1))
    ensures Before(StampAt(h, walls, i), StampAt(h, walls, j))
    decreases j
  {
    assert Before(StampAt(h, walls, j - 1), StampAt(h, walls, j - 1 + 1));
    if i < j - 1 {
      StepsAscend(h, walls, i, j - 1);
      Transitive(StampAt(h, walls, i), StampAt(h, walls, j - 1), StampAt(h, walls, j));
    }
  }

  lemma {:induction false} RunInRange(h: Hlc, walls: seq<u64>, i: nat)
    requires i <= |walls| && InRange(TickRun(h, walls))
    ensures InRange(TickRun(h, walls[..i]))
    decreases |walls| - i
  {
    if i < |walls| {
      RunInRange(h, walls, i + 1);
      TickRunStep(h, walls, i);
    } else {
      assert walls[..i] == walls;
    }
  }

  // ── Reopening a database ───────────────────────────────────────────────────

  /** `SELECT MAX(hlc)` returns the stamp of this stored clock: no stored stamp is above it. */
  ghost predicate IsMaxStamp(stored: set<Hlc>, last: Hlc) {
    last in stored && forall h :: h in stored ==> AtMost(ToString(h), ToString(last))
  }

  /** The clock `open` starts from, and the next write made with it. */
  function Recover(maxStamp: Option<string>, initial: Hlc): Hlc {
    if maxStamp.Some? then
      var parsed := FromString(maxStamp.value);
      if parsed.Some? then parsed.value else initial
    else initial
  }

  /** Where a database starts from: a fresh one, or one whose greatest stamp does not parse, from the clock
      of its own node; any other from its greatest stamp. */
  lemma RecoversExactly(maxStamp: Option<string>, initial: Hlc)
    ensures maxStamp.None? || FromString(maxStamp.value).None? ==> Recover(maxStamp, initial) == initial
    ensures maxStamp.Some? && FromString(maxStamp.value).Some? ==>
      Some(Recover(maxStamp, initial)) == FromString(maxStamp.value)
  {
  }

  /** After reopening from the greatest stored stamp, the next write exceeds every stored record,
      whichever node wrote it, exactly when the recovered clock can still tick. */
  lemma ReopenedWriteExceedsAll(stored: set<Hlc>, last: Hlc, initial: Hlc, wallMs: u64)
    requires IsMaxStamp(stored, last) && InRange(last) && InRange(Tick(last, wallMs))
    ensures Recover(Some(ToString(last)), initial) == last
    ensures (forall h :: h in stored ==> Before(ToString(h), ToString(Tick(last, wallMs))))
      <==> (last.physicalMs < wallMs || last.logical < U16_MAX)
  {
    RoundTrip(last);
    var next := Tick(last, wallMs);
    TickExceedsExactly(last, wallMs);
    StringOrderInRange(last, next);
    forall h | h in stored && Before(ToString(last), ToString(next))
      ensures Before(ToString(h), ToString(next))
    {
      Trichotomy(ToString(h), ToString(last));
      if Before(ToString(h), ToString(last)) { Transitive(ToString(h), ToString(last), ToString(next)); }
    }
  }

  /** In range, the greatest stamp is the stamp of the greatest clock. */
  lemma MaxStampIsGreatest(stored: set<Hlc>, last: Hlc)
    requires last in stored && forall h :: h in stored ==> InRange(h)
    ensures IsMaxStamp(stored, last) <==> forall h :: h in stored ==> !Less(last, h)
  {
    forall h | h in stored ensures AtMost(ToString(h), ToString(last)) <==> !Less(last, h) {
      StringOrderInRange(last, h);
    }
  }

  /** Two devices that reopen from one greatest stamp, whichever node it names, make one and the same
      next stamp exactly when they reach the same millisecond. */
  lemma ReopenedTwinsExactly(last: Hlc, a: Hlc, b: Hlc, wallA: u64, wallB: u64)
    ensures var g, h := Recover(Some(ToString(last)), a), Recover(Some(ToString(last)), b);
      ToString(Tick(g, wallA)) == ToString(Tick(h, wallB)) <==>
      Max(wallA, last.physicalMs) == Max(wallB, last.physicalMs)
  {
    RoundTrip(last);
    TicksCollideExactly(last, wallA, last, wallB);
  }
}

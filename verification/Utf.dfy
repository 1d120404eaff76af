/**
 UTF-8 and UTF-16 (src/str.c; section 3 of RFC 3629, sections 2.1 and 2.2 of RFC 2781): the
 readers and writers of one code point, the two transcoders, and their variants for filenames.
 */
module Utf {
  import opened Basics

  type Unit = n: int | 0 <= n < 65536

  predicate Scalar(c: int) {
    0 <= c < 0xD800 || 0xE000 <= c <= 0x10FFFF
  }

  // ----- one code point -----

  function Low(n: int): Byte {
    n % 256
  }

  /** The shortest form of a code point. */
  function Enc8(c: nat): (s: seq<Byte>)
    ensures 1 <= |s| <= 4
  {
    if c <= 0x7F then [Low(c)]
    else if c <= 0x7FF then [Low(0xC0 + c / 64), Low(0x80 + c % 64)]
    else if c <= 0xFFFF then [Low(0xE0 + c / 4096), Low(0x80 + c / 64 % 64), Low(0x80 + c % 64)]
    else [Low(0xF0 + c / 262144), Low(0x80 + c / 4096 % 64), Low(0x80 + c / 64 % 64), Low(0x80 + c % 64)]
  }

  function Unit16(n: int): Unit {
    n % 65536
  }

  function Enc16(c: nat): (s: seq<Unit>)
    ensures 1 <= |s| <= 2
  {
    if c <= 0xFFFF then [Unit16(c)]
    else [Unit16(0xD800 + (c - 0x10000) / 1024), Unit16(0xDC00 + (c - 0x10000) % 1024)]
  }

  datatype Read = Read(c: nat, len: nat)

  function B(d: seq<Byte>, i: nat): int
    requires i < |d|
  {
    d[i]
  }

  function U(d: seq<Unit>, i: nat): int
    requires i < |d|
  {
    d[i]
  }

  /** utf8_read_increment. Its LOWBITS keeps one bit more than its name says. */
  function Read8(d: seq<Byte>): (r: Option<Read>)
    requires |d| > 0
    ensures r.Some? ==> 1 <= r.value.len <= |d|
  {
    var b := B(d, 0);
    if b < 0x80 then Some(Read(b, 1))
    else if b / 32 == 6 && |d| >= 2 then Some(Read(b % 64 * 64 + B(d, 1) % 128, 2))
    else if b / 16 == 14 && |d| >= 3 then Some(Read(b % 32 * 4096 + B(d, 1) % 128 * 64 + B(d, 2) % 128, 3))
    else if b / 8 == 30 && |d| >= 4 then
      Some(Read(b % 16 * 262144 + B(d, 1) % 128 * 4096 + B(d, 2) % 128 * 64 + B(d, 3) % 128, 4))
    else None
  }

  /** utf16_read_increment. */
  function Read16(d: seq<Unit>): (r: Option<Read>)
    requires |d| > 0
    ensures r.Some? ==> 1 <= r.value.len <= |d| && Scalar(r.value.c)
  {
    if U(d, 0) < 0xD800 || U(d, 0) >= 0xE000 then Some(Read(U(d, 0), 1))
    else if |d| >= 2 && U(d, 0) <= 0xDBFF && 0xDC00 <= U(d, 1) <= 0xDFFF then
      Some(Read(0x10000 + (U(d, 0) - 0xD800) * 1024 + (U(d, 1) - 0xDC00), 2))
    else None
  }

  lemma Read8Back(c: nat, rest: seq<Byte>)
    requires Scalar(c)
    ensures Read8(Enc8(c) + rest) == Some(Read(c, |Enc8(c)|))
  {
    hide Read8, Low;
    var d := Enc8(c) + rest;
    Digits64(c);
    LowIs();
    if c <= 0x7F {
      ReadOne(d, c);
    } else if c <= 0x7FF {
      ReadTwo(d, c / 64, c % 64);
    } else if c <= 0xFFFF {
      ReadThree(d, c / 4096, c / 64 % 64, c % 64);
    } else {
      ReadFour(d, c / 262144, c / 4096 % 64, c / 64 % 64, c % 64);
    }
  }

  lemma LowIs()
    ensures forall n: int :: 0 <= n < 256 ==> Low(n) == n
    ensures forall n: int :: 0 <= n < 65536 ==> Unit16(n) == n
  {
  }

  lemma ReadOne(d: seq<Byte>, n: nat)
    requires |d| >= 1 && n < 128 && B(d, 0) == n
    ensures Read8(d) == Some(Read(n, 1))
  {
  }

  lemma ReadTwo(d: seq<Byte>, n: nat, m: nat)
    requires |d| >= 2 && n < 32 && m < 64 && B(d, 0) == 0xC0 + n && B(d, 1) == 0x80 + m
    ensures Read8(d) == Some(Read(n * 64 + m, 2))
  {
  }

  lemma ReadThree(d: seq<Byte>, n: nat, m: nat, k: nat)
    requires |d| >= 3 && n < 16 && m < 64 && k < 64 && B(d, 0) == 0xE0 + n && B(d, 1) == 0x80 + m && B(d, 2) == 0x80 + k
    ensures Read8(d) == Some(Read(n * 4096 + m * 64 + k, 3))
  {
  }

  lemma ReadFour(d: seq<Byte>, n: nat, m: nat, k: nat, l: nat)
    requires |d| >= 4 && n < 8 && m < 64 && k < 64 && l < 64
    requires B(d, 0) == 0xF0 + n && B(d, 1) == 0x80 + m && B(d, 2) == 0x80 + k && B(d, 3) == 0x80 + l
    ensures Read8(d) == Some(Read(n * 262144 + m * 4096 + k * 64 + l, 4))
  {
  }

  lemma Digits64(c: nat)
    ensures c == c / 64 * 64 + c % 64
    ensures c / 64 == c / 4096 * 64 + c / 64 % 64
    ensures c / 4096 == c / 262144 * 64 + c / 4096 % 64
  {
    assert c / 64 / 64 == c / 4096;
    assert c / 4096 / 64 == c / 262144;
  }

  lemma Read16Back(c: nat, rest: seq<Unit>)
    requires Scalar(c)
    ensures Read16(Enc16(c) + rest) == Some(Read(c, |Enc16(c)|))
  {
    hide Unit16;
    LowIs();
    var d := Enc16(c) + rest;
    if c <= 0xFFFF {
      assert U(d, 0) == c;
    } else {
      var n := c - 0x10000;
      assert n / 1024 < 1024 && n % 1024 < 1024 && n == n / 1024 * 1024 + n % 1024;
      assert U(d, 0) == 0xD800 + n / 1024 && U(d, 1) == 0xDC00 + n % 1024;
    }
  }

  // ----- the forms themselves -----

  predicate Tail(b: int) {
    0x80 <= b <= 0xBF
  }

  /** The forms of section 3 of RFC 3629: the ranges of the bytes, and the value they stand for; a longer
      form is used only where no shorter one is. */
  lemma Enc8Forms(c: nat)
    requires c <= 0x10FFFF
    ensures var s := Enc8(c);
            && (forall i :: 0 < i < |s| ==> Tail(s[i]))
            && if |s| == 1 then c == B(s, 0) <= 0x7F
               else if |s| == 2 then 0xC2 <= s[0] <= 0xDF && c == 64 * (B(s, 0) - 0xC0) + (B(s, 1) - 0x80) && 0x80 <= c
               else if |s| == 3 then 0xE0 <= s[0] <= 0xEF && c == 4096 * (B(s, 0) - 0xE0) + 64 * (B(s, 1) - 0x80) + (B(s, 2) - 0x80) && 0x800 <= c
               else 0xF0 <= s[0] <= 0xF4 && 0x10000 <= c
                    && c == 262144 * (B(s, 0) - 0xF0) + 4096 * (B(s, 1) - 0x80) + 64 * (B(s, 2) - 0x80) + (B(s, 3) - 0x80)
  {
    hide Low;
    LowIs();
    Digits64(c);
  }

  /** The bytes that the first one announces; 0 for a byte that begins no form. */
  function FormLen(b: int): nat {
    if b <= 0x7F then 1 else if 0xC0 <= b <= 0xDF then 2 else if 0xE0 <= b <= 0xEF then 3 else if 0xF0 <= b <= 0xF7 then 4 else 0
  }

  /** What the reader accepts: any form that is not cut off, whatever its further bytes are. Where they are
      what they should be, it reads the value of the form. */
  lemma Read8Iff(d: seq<Byte>)
    requires |d| > 0
    ensures var n := FormLen(B(d, 0)); var r := Read8(d);
            && (r.Some? <==> 1 <= n <= |d|)
            && (r.Some? ==> r.value.len == n)
            && (r.Some? && (forall i :: 0 < i < n ==> Tail(d[i])) ==>
                  r.value.c == if n == 1 then B(d, 0)
                               else if n == 2 then 64 * (B(d, 0) - 0xC0) + (B(d, 1) - 0x80)
                               else if n == 3 then 4096 * (B(d, 0) - 0xE0) + 64 * (B(d, 1) - 0x80) + (B(d, 2) - 0x80)
                               else 262144 * (B(d, 0) - 0xF0) + 4096 * (B(d, 1) - 0x80) + 64 * (B(d, 2) - 0x80) + (B(d, 3) - 0x80))
  {
  }

  /** So malformed and overlong input is read: a letter as the second byte of a form, and a NUL in two bytes. */
  lemma ReadsMalformed()
    ensures Read8([0xC3, 0x41]) == Some(Read(0x101, 2)) && Read8([0xC0, 0x80]) == Some(Read(0, 2))
  {
  }

  /** The forms of section 2.1 of RFC 2781: the high surrogate comes first. */
  lemma Enc16Forms(c: nat)
    requires Scalar(c)
    ensures var s := Enc16(c);
            if c < 0x10000 then |s| == 1 && U(s, 0) == c
            else |s| == 2 && 0xD800 <= s[0] <= 0xDBFF && 0xDC00 <= s[1] <= 0xDFFF && c == 0x10000 + 0x400 * (U(s, 0) - 0xD800) + (U(s, 1) - 0xDC00)
  {
    hide Unit16;
    LowIs();
    if c >= 0x10000 {
      var n := c - 0x10000;
      assert n / 1024 < 1024 && n == n / 1024 * 1024 + n % 1024;
    }
  }

  /** What the reader accepts is exactly a unit that is no surrogate, or a high one and a low one. */
  lemma Read16Iff(d: seq<Unit>)
    requires |d| > 0
    ensures var r := Read16(d);
            if 0xD800 <= d[0] <= 0xDFFF
            then (r.Some? <==> d[0] <= 0xDBFF && |d| >= 2 && 0xDC00 <= d[1] <= 0xDFFF)
                 && (r.Some? ==> r.value == Read(0x10000 + 0x400 * (U(d, 0) - 0xD800) + (U(d, 1) - 0xDC00), 2))
            else r == Some(Read(U(d, 0), 1))
  {
  }

  // ----- whole strings -----

  predicate Scalars(cs: seq<nat>) {
    forall i :: 0 <= i < |cs| ==> Scalar(cs[i])
  }

  function All8(cs: seq<nat>): seq<Byte> {
    if cs == [] then [] else Enc8(cs[0]) + All8(cs[1..])
  }

  function All16(cs: seq<nat>): seq<Unit> {
    if cs == [] then [] else Enc16(cs[0]) + All16(cs[1..])
  }

  /** The code points that a transcoder reads; None if it comes to something it cannot read. */
  function Points8(d: seq<Byte>): Option<seq<nat>> {
    if d == [] then Some([])
    else
      match Read8(d)
      case None => None
      case Some(r) =>
        match Points8(d[r.len..])
        case None => None
        case Some(cs) => Some([r.c] + cs)
  }

  function Points16(d: seq<Unit>): (r: Option<seq<nat>>)
    ensures r.Some? ==> Scalars(r.value)
  {
    if d == [] then Some([])
    else
      match Read16(d)
      case None => None
      case Some(r) =>
        match Points16(d[r.len..])
        case None => None
        case Some(cs) => Some([r.c] + cs)
  }

  lemma {:induction false} Points8Back(cs: seq<nat>)
    requires Scalars(cs)
    ensures Points8(All8(cs)) == Some(cs)
  {
    hide Enc8, Read8;
    if cs != [] {
      Read8Back(cs[0], All8(cs[1..]));
      assert All8(cs) != [] && All8(cs)[|Enc8(cs[0])|..] == All8(cs[1..]);
      Points8Back(cs[1..]);
      assert [cs[0]] + cs[1..] == cs;
    }
  }

  lemma {:induction false} Points16Back(cs: seq<nat>)
    requires Scalars(cs)
    ensures Points16(All16(cs)) == Some(cs)
  {
    hide Enc16, Read16;
    if cs != [] {
      Read16Back(cs[0], All16(cs[1..]));
      assert All16(cs) != [] && All16(cs)[|Enc16(cs[0])|..] == All16(cs[1..]);
      Points16Back(cs[1..]);
      assert [cs[0]] + cs[1..] == cs;
    }
  }

  // ----- filenames -----

  /** filename_transform_chars: characters that Windows does not allow in a filename go to the private
      use area, and the slash becomes a backslash. */
  function Transform(c: nat): nat
    requires c < 0x80
  {
    if 1 <= c <= 31 || c in {34, 42, 58, 60, 62, 63, 124} then 0xF000 + c
    else if c == 47 then 92
    else c
  }

  /** utf8_to_utf16_filename reads the table up to index 0x80, one past its end; `past` is what it finds
      there. */
  function ToName(c: nat, past: Unit): nat {
    if c < 0x80 then Transform(c) else if c == 0x80 then past else c
  }

  /** Characters that Windows does not allow in a filename. */
  predicate Forbidden(c: nat) {
    1 <= c <= 31 || c in {'"' as int, '*' as int, '/' as int, ':' as int, '<' as int, '>' as int, '?' as int, '|' as int}
  }

  /** A filename holds none of them: a slash becomes a backslash, the others go to the private use area, and
      everything else stays as it is. */
  lemma NameAllowed(c: nat, past: Unit)
    requires Scalar(c) && c != 0x80
    ensures !Forbidden(ToName(c, past))
    ensures ToName(c, past) == if c == '/' as int then '\\' as int else if Forbidden(c) then 0xF000 + c else c
  {
  }

  function FromName(c: nat): nat {
    if c == 92 then 47 else if Transform(c % 128) == c then c % 128 else c
  }

  /** A private-use character that the table produces. */
  predicate Produced(c: nat) {
    0xF001 <= c <= 0xF01F || (c >= 0xF000 && c - 0xF000 in {34, 42, 58, 60, 62, 63, 124})
  }

  /** A character survives the way to a filename and back if and only if it is no backslash, not one
      of the private-use characters that the table produces, and U+0080 only by luck. */
  lemma NameBackIff(c: nat, past: Unit)
    requires Scalar(c)
    ensures FromName(ToName(c, past)) == c <==>
            if c == 0x80 then FromName(past) == 0x80
            else c != 92 && !Produced(c)
  {
  }

  function Point(filename: bool, past: Unit, c: nat): nat {
    if filename then ToName(c, past) else c
  }

  function Points(filename: bool, past: Unit, cs: seq<nat>): seq<nat> {
    if cs == [] then [] else [Point(filename, past, cs[0])] + Points(filename, past, cs[1..])
  }

  function BackPoint(filename: bool, c: nat): nat {
    if filename then FromName(c) else c
  }

  function BackPoints(filename: bool, cs: seq<nat>): seq<nat> {
    if cs == [] then [] else [BackPoint(filename, cs[0])] + BackPoints(filename, cs[1..])
  }

  // ----- the transcoders -----

  /** What utf8_to_utf16 makes of `d`; None where it returns -1 for malformed input. */
  function To16(filename: bool, past: Unit, d: seq<Byte>): Option<seq<Unit>> {
    match Points8(d)
    case None => None
    case Some(cs) => Some(All16(Points(filename, past, cs)))
  }

  function To8(filename: bool, d: seq<Unit>): Option<seq<Byte>> {
    match Points16(d)
    case None => None
    case Some(cs) => Some(All8(BackPoints(filename, cs)))
  }

  /** The round trip: for every sequence of scalar values in shortest form, UTF-8 to UTF-16 and back is
      the identity. */
  lemma RoundTrip(cs: seq<nat>, past: Unit)
    requires Scalars(cs)
    ensures To16(false, past, All8(cs)) == Some(All16(cs)) && To8(false, All16(cs)) == Some(All8(cs))
  {
    Points8Back(cs);
    Points16Back(cs);
    PlainPoints(cs, past);
  }

  lemma {:induction false} PlainPoints(cs: seq<nat>, past: Unit)
    ensures Points(false, past, cs) == cs && BackPoints(false, cs) == cs
  {
    if cs != [] {
      PlainPoints(cs[1..], past);
    }
  }

  /** A character that survives the way to a filename and back (NameBackIff says which do). */
  predicate Survives(c: nat, past: Unit) {
    FromName(ToName(c, past)) == c
  }

  /** The filename pair round-trips exactly on the strings all of whose characters survive. */
  lemma FilenameRoundTripIff(cs: seq<nat>, past: Unit)
    requires Scalars(cs) && Scalar(past)
    ensures To16(true, past, All8(cs)) == Some(All16(Points(true, past, cs)))
    ensures To8(true, All16(Points(true, past, cs))) == Some(All8(cs)) <==> forall i :: 0 <= i < |cs| ==> Survives(cs[i], past)
  {
    Points8Back(cs);
    var names := Points(true, past, cs);
    NamesAre(cs, past);
    Points16Back(names);
    var back := BackPoints(true, names);
    if All8(back) == All8(cs) {
      BackAre(names);
      Points8Back(back);
      Points8Back(cs);
      assert back == cs;
    } else {
      assert back != cs;
    }
    assert back == cs <==> forall i :: 0 <= i < |cs| ==> back[i] == cs[i];
  }

  lemma {:induction false} NamesAre(cs: seq<nat>, past: Unit)
    requires Scalars(cs) && Scalar(past)
    ensures var n := Points(true, past, cs);
            && Scalars(n) && |n| == |cs| && |BackPoints(true, n)| == |cs|
            && (forall i :: 0 <= i < |cs| ==> n[i] == ToName(cs[i], past) && BackPoints(true, n)[i] == FromName(ToName(cs[i], past)))
  {
    if cs != [] {
      NamesAre(cs[1..], past);
      var n := Points(true, past, cs);
      assert n == [ToName(cs[0], past)] + Points(true, past, cs[1..]);
      assert BackPoints(true, n) == [FromName(n[0])] + BackPoints(true, n[1..]);
    }
  }

  lemma {:induction false} BackAre(names: seq<nat>)
    requires Scalars(names)
    ensures Scalars(BackPoints(true, names))
  {
    if names != [] {
      BackAre(names[1..]);
    }
  }

  // ----- the loops -----

  lemma {:induction false} All16Concat(a: seq<nat>, b: seq<nat>)
    ensures All16(a + b) == All16(a) + All16(b)
  {
    hide Enc16;
    if a == [] {
      assert a + b == b;
    } else {
      var ab := a + b;
      All16Concat(a[1..], b);
      assert ab[1..] == a[1..] + b && ab[0] == a[0] && ab != [];
      assert All16(ab) == Enc16(a[0]) + (All16(a[1..]) + All16(b));
    }
  }

  lemma PointsCons(filename: bool, past: Unit, c: nat, rest: seq<nat>)
    ensures Points(filename, past, [c] + rest) == [Point(filename, past, c)] + Points(filename, past, rest)
    ensures BackPoints(filename, [c] + rest) == [BackPoint(filename, c)] + BackPoints(filename, rest)
    ensures Points(filename, past, []) == [] && BackPoints(filename, []) == []
  {
    hide Point, BackPoint;
    assert ([c] + rest)[1..] == rest;
  }

  lemma {:induction false} PointsConcat(filename: bool, past: Unit, a: seq<nat>, b: seq<nat>)
    ensures Points(filename, past, a + b) == Points(filename, past, a) + Points(filename, past, b)
    ensures BackPoints(filename, a + b) == BackPoints(filename, a) + BackPoints(filename, b)
  {
    hide Point, BackPoint, Points, BackPoints;
    PointsCons(filename, past, 0, []);
    if a == [] {
      assert a + b == b;
    } else {
      PointsConcat(filename, past, a[1..], b);
      PointsCons(filename, past, a[0], a[1..]);
      PointsCons(filename, past, a[0], a[1..] + b);
      assert [a[0]] + a[1..] == a && [a[0]] + (a[1..] + b) == a + b;
    }
  }

  /** The code points before position `i` are `done`. */
  ghost predicate At8(d: seq<Byte>, i: nat, done: seq<nat>) {
    && i <= |d| && (Points8(d).Some? <==> Points8(d[i..]).Some?)
    && (Points8(d).Some? ==> Points8(d).value == done + Points8(d[i..]).value)
  }

  lemma Step8(d: seq<Byte>, i: nat, done: seq<nat>)
    requires At8(d, i, done) && i < |d|
    ensures match Read8(d[i..])
            case None => Points8(d).None?
            case Some(r) => At8(d, i + r.len, done + [r.c])
  {
    match Read8(d[i..])
    case None =>
    case Some(r) => assert d[i..][r.len..] == d[i + r.len..];
  }

  /** The next unit of output, and what is still to come. */
  lemma Room16(filename: bool, past: Unit, d: seq<Byte>, i: nat, done: seq<nat>)
    requires At8(d, i, done)
    ensures To16(filename, past, d).Some? ==>
              && |All16(Points(filename, past, done))| <= |To16(filename, past, d).value|
              && (i == |d| ==> To16(filename, past, d).value == All16(Points(filename, past, done)))
    ensures i == |d| ==> To16(filename, past, d).Some?
  {
    if Points8(d).Some? {
      var rest := Points8(d[i..]).value;
      PointsConcat(filename, past, done, rest);
      All16Concat(Points(filename, past, done), Points(filename, past, rest));
      assert i == |d| ==> d[i..] == [] && done + rest == done;
    }
  }

  lemma Grow16(filename: bool, past: Unit, done: seq<nat>, c: nat)
    ensures All16(Points(filename, past, done + [c])) == All16(Points(filename, past, done)) + Enc16(Point(filename, past, c))
  {
    hide Point, Enc16, Points;
    PointsConcat(filename, past, done, [c]);
    PointsCons(filename, past, c, []);
    var p := Point(filename, past, c);
    assert [c] + [] == [c] && [p] + [] == [p] && [p][1..] == [];
    All16Concat(Points(filename, past, done), [p]);
    assert All16([p]) == Enc16(p) + All16([]) == Enc16(p);
  }

  /** utf8_to_utf16 and utf8_to_utf16_filename. Without a buffer only the length is computed. */
  method Utf8ToUtf16(data: seq<Byte>, out: array?<Unit>, dstlen: nat, filename: bool, past: Unit) returns (n: int)
    requires out != null ==> dstlen <= out.Length
    modifies out
    ensures var t := To16(filename, past, data);
            && (n < 0 <==> t.None? || (out != null && |t.value| > dstlen)) && (n < 0 ==> n == -1)
            && (n >= 0 ==> n == |t.value|)
            && (n >= 0 && out != null ==> n <= dstlen && out[..n] == t.value && out[n..] == old(out[n..]))
  {
    hide To16, Points8, Read8, Enc16, All16, Points, Point;
    var i: nat := 0;
    n := 0;
    ghost var done: seq<nat> := [];
    Starts(data, filename, past);
    while i < |data|
      invariant At8(data, i, done) && n == |All16(Points(filename, past, done))|
      invariant out != null ==> n <= dstlen && out[..n] == All16(Points(filename, past, done)) && forall k :: n <= k < out.Length ==> out[k] == old(out[k])
      decreases |data| - i
    {
      Step8(data, i, done);
      var r := Read8(data[i..]);
      if r.None? {
        assert To16(filename, past, data).None? by { Malformed(data, filename, past); }
        return -1;
      }
      var c := Point(filename, past, r.value.c);
      Grow16(filename, past, done, r.value.c);
      Room16(filename, past, data, i + r.value.len, done + [r.value.c]);
      var u := Enc16(c);
      if out != null {
        if n + |u| > dstlen {
          return -1;
        }
        out[n] := u[0];
        if |u| == 2 {
          out[n + 1] := u[1];
        }
        assert out[..n + |u|] == out[..n] + u;
      }
      n := n + |u|;
      i := i + r.value.len;
      done := done + [r.value.c];
    }
    Room16(filename, past, data, i, done);
  }

  lemma Starts(d: seq<Byte>, filename: bool, past: Unit)
    ensures At8(d, 0, []) && All16(Points(filename, past, [])) == []
  {
    assert d[0..] == d;
    assert Points8(d).Some? ==> [] + Points8(d).value == Points8(d).value;
  }

  lemma Malformed(d: seq<Byte>, filename: bool, past: Unit)
    requires Points8(d).None?
    ensures To16(filename, past, d).None?
  {
  }

  // ----- UTF-16 to UTF-8 -----

  /** What fits: utf8_write_increment writes nothing and reports no error for a code point that does
      not fit, and the loop goes on with the next one. */
  function Fitting(cs: seq<nat>, room: nat): (s: seq<Byte>)
    ensures |s| <= room
  {
    if cs == [] then []
    else if |Enc8(cs[0])| <= room then Enc8(cs[0]) + Fitting(cs[1..], room - |Enc8(cs[0])|)
    else Fitting(cs[1..], room)
  }

  /** Nothing is lost if and only if there is room for all of it. */
  lemma {:induction false} FittingIff(cs: seq<nat>, room: nat)
    ensures if |All8(cs)| <= room then Fitting(cs, room) == All8(cs) else |Fitting(cs, room)| < |All8(cs)|
  {
    hide Enc8;
    if cs != [] {
      if |Enc8(cs[0])| <= room {
        FittingIff(cs[1..], room - |Enc8(cs[0])|);
      } else {
        FittingIff(cs[1..], room);
      }
    }
  }

  /** With room for one byte, U+00E9 is lost and the letter behind it is written. */
  lemma ShortBuffer()
    ensures Points16([0xE9, 0x41]) == Some([0xE9, 0x41]) && Fitting([0xE9, 0x41], 1) == [0x41]
  {
    Points16Back([0xE9, 0x41]);
    assert All16([0xE9, 0x41]) == [0xE9] + All16([0x41]) && All16([0x41]) == [0x41] + All16([]);
    assert Fitting([0xE9, 0x41], 1) == Fitting([0x41], 1) && Fitting([0x41], 1) == [0x41] + Fitting([], 0);
  }

  lemma {:induction false} FittingConcat(a: seq<nat>, c: nat, room: nat)
    ensures Fitting(a + [c], room) == Fitting(a, room) + if |Enc8(c)| <= room - |Fitting(a, room)| then Enc8(c) else []
    decreases |a|
  {
    hide Enc8;
    var ac := a + [c];
    if a == [] {
      assert ac == [c] && ac[1..] == [];
      assert Fitting([], room) == [] && Fitting([], room - if |Enc8(c)| <= room then |Enc8(c)| else 0) == [];
    } else {
      assert ac[0] == a[0] && ac[1..] == a[1..] + [c];
      FittingConcat(a[1..], c, if |Enc8(a[0])| <= room then room - |Enc8(a[0])| else room);
    }
  }

  ghost predicate At16(d: seq<Unit>, i: nat, done: seq<nat>) {
    && i <= |d| && (Points16(d).Some? <==> Points16(d[i..]).Some?)
    && (Points16(d).Some? ==> Points16(d).value == done + Points16(d[i..]).value)
  }

  lemma Step16(d: seq<Unit>, i: nat, done: seq<nat>)
    requires At16(d, i, done) && i < |d|
    ensures match Read16(d[i..])
            case None => Points16(d).None?
            case Some(r) => At16(d, i + r.len, done + [r.c])
  {
    match Read16(d[i..])
    case None =>
    case Some(r) => assert d[i..][r.len..] == d[i + r.len..];
  }

  lemma GrowBack(filename: bool, done: seq<nat>, c: nat)
    ensures BackPoints(filename, done + [c]) == BackPoints(filename, done) + [BackPoint(filename, c)]
  {
    hide BackPoint, BackPoints;
    PointsConcat(filename, 0, done, [c]);
    PointsCons(filename, 0, c, []);
    assert [c] + [] == [c];
  }

  lemma End16(d: seq<Unit>, done: seq<nat>)
    requires At16(d, |d|, done)
    ensures Points16(d) == Some(done)
  {
    assert d[|d|..] == [] && done + [] == done;
  }

  lemma Start16(d: seq<Unit>, filename: bool, room: nat)
    ensures At16(d, 0, []) && Fitting(BackPoints(filename, []), room) == []
  {
    assert d[0..] == d;
    assert Points16(d).Some? ==> [] + Points16(d).value == Points16(d).value;
  }

  /** utf8_write_increment at position `n`. */
  method Put8(c: nat, out: array<Byte>, n: nat, dstlen: nat) returns (m: nat)
    requires n <= dstlen <= out.Length
    modifies out
    ensures m == if |Enc8(c)| <= dstlen - n then n + |Enc8(c)| else n
    ensures out[..m] == old(out[..n]) + if |Enc8(c)| <= dstlen - n then Enc8(c) else []
    ensures forall k :: m <= k < out.Length ==> out[k] == old(out[k])
  {
    hide Enc8;
    var b := Enc8(c);
    if |b| > dstlen - n {
      return n;
    }
    for k := 0 to |b|
      invariant out[..n] == old(out[..n]) && forall j :: 0 <= j < k ==> out[n + j] == b[j]
      invariant forall j :: n + k <= j < out.Length ==> out[j] == old(out[j])
    {
      out[n + k] := b[k];
    }
    m := n + |b|;
    assert out[..m] == old(out[..n]) + b;
  }

  /** utf16_to_utf8 and utf16_to_utf8_filename. A buffer that is too short is not reported: the result
      is what fits, and it is complete exactly if there was room (FittingIff). */
  method Utf16ToUtf8(data: seq<Unit>, out: array?<Byte>, dstlen: nat, filename: bool) returns (n: int)
    requires out != null ==> dstlen <= out.Length
    modifies out
    ensures n < 0 <==> Points16(data).None?
    ensures n < 0 ==> n == -1
    ensures n >= 0 && out == null ==> n == |All8(BackPoints(filename, Points16(data).value))|
    ensures n >= 0 && out != null ==>
              && n == |Fitting(BackPoints(filename, Points16(data).value), dstlen)|
              && out[..n] == Fitting(BackPoints(filename, Points16(data).value), dstlen)
              && forall k :: n <= k < out.Length ==> out[k] == old(out[k])
  {
    hide Points16, Read16, Enc8, BackPoints, BackPoint, Fitting, All8;
    if out == null {
      n := Size8(data, filename);
      return;
    }
    var i: nat := 0;
    n := 0;
    ghost var done: seq<nat> := [];
    Start16(data, filename, dstlen);
    while i < |data|
      invariant At16(data, i, done)
      invariant 0 <= n <= dstlen && out[..n] == Fitting(BackPoints(filename, done), dstlen)
      invariant forall k :: n <= k < out.Length ==> out[k] == old(out[k])
      decreases |data| - i
    {
      Step16(data, i, done);
      var r := Read16(data[i..]);
      if r.None? {
        return -1;
      }
      var c := BackPoint(filename, r.value.c);
      GrowBack(filename, done, r.value.c);
      FittingConcat(BackPoints(filename, done), c, dstlen);
      n := Put8(c, out, n, dstlen);
      i := i + r.value.len;
      done := done + [r.value.c];
    }
    End16(data, done);
  }

  /** The sizing pass: the length that the whole output has. */
  method Size8(data: seq<Unit>, filename: bool) returns (n: int)
    ensures n < 0 <==> Points16(data).None?
    ensures n < 0 ==> n == -1
    ensures n >= 0 ==> n == |All8(BackPoints(filename, Points16(data).value))|
  {
    hide Points16, Read16, Enc8, BackPoints, BackPoint, All8;
    var i: nat := 0;
    n := 0;
    ghost var done: seq<nat> := [];
    Start16(data, filename, 0);
    assert All8(BackPoints(filename, [])) == [] by { NothingYet(filename); }
    while i < |data|
      invariant At16(data, i, done) && n == |All8(BackPoints(filename, done))|
      decreases |data| - i
    {
      Step16(data, i, done);
      var r := Read16(data[i..]);
      if r.None? {
        return -1;
      }
      var c := BackPoint(filename, r.value.c);
      GrowBack(filename, done, r.value.c);
      All8Ends(BackPoints(filename, done), c);
      n := n + |Enc8(c)|;
      i := i + r.value.len;
      done := done + [r.value.c];
    }
    End16(data, done);
  }

  lemma NothingYet(filename: bool)
    ensures All8(BackPoints(filename, [])) == []
  {
  }

  lemma {:induction false} All8Ends(a: seq<nat>, c: nat)
    ensures All8(a + [c]) == All8(a) + Enc8(c)
  {
    hide Enc8;
    var ac := a + [c];
    if a == [] {
      assert ac == [c] && ac[1..] == [];
    } else {
      assert ac[0] == a[0] && ac[1..] == a[1..] + [c];
      All8Ends(a[1..], c);
    }
  }
}

// The byte stream of a BIR file: big-endian reads at a cursor, and the encodings
// they undo. A read past the end yields zero bytes.
module Streams {
  import opened Options
  import opened Words

  const TWO_31: int := 0x8000_0000
  const TWO_32: int := 0x1_0000_0000

  type Int32 = x: int | -TWO_31 <= x < TWO_31

  // The low 32 bits of a 64-bit value.
  function Truncated(n: Int64): (r: Int32)
    ensures (n - r) % TWO_32 == 0
  {
    (n + TWO_31) % TWO_32 - TWO_31
  }

  // ----- Numbers as bytes -----

  function Span(k: nat): (r: nat)
    ensures r > 0
  {
    if k == 0 then 1 else 256 * Span(k - 1)
  }

  function BigEndian(b: seq<Byte>): (r: nat)
    ensures r < Span(|b|)
  {
    if b == [] then 0 else 256 * BigEndian(b[..|b| - 1]) + b[|b| - 1]
  }

  function BytesOf(n: nat, k: nat): (r: seq<Byte>)
    ensures |r| == k
  {
    if k == 0 then [] else BytesOf(n / 256, k - 1) + [n % 256]
  }

  lemma {:induction false} BytesRoundTrip(n: nat, k: nat)
    requires n < Span(k)
    ensures BigEndian(BytesOf(n, k)) == n
  {
    if k > 0 {
      BytesRoundTrip(n / 256, k - 1);
      assert BytesOf(n, k)[..k - 1] == BytesOf(n / 256, k - 1);
    }
  }

  lemma Spans()
    ensures Span(4) == TWO_32 && Span(8) == TWO_64
  {
    assert Span(2) == 65536;
  }

  function S4Bytes(n: Int32): (r: seq<Byte>)
    ensures |r| == 4
  {
    BytesOf(n % TWO_32, 4)
  }

  function S8Bytes(n: Int64): (r: seq<Byte>)
    ensures |r| == 8
  {
    BytesOf(Unsigned(n), 8)
  }

  // A binary64 value, as its bit pattern.
  function F8Bytes(w: Word): (r: seq<Byte>)
    ensures |r| == 8
  {
    BytesOf(w, 8)
  }

  // ----- Reading at a position -----

  function U1(s: seq<Byte>, p: nat): Byte {
    if p < |s| then s[p] else 0
  }

  function Chars(s: seq<Byte>, p: nat, k: nat): (r: seq<Byte>)
    ensures |r| == k
  {
    seq<Byte>(k, i requires 0 <= i < k => U1(s, p + i))
  }

  function S4(s: seq<Byte>, p: nat): Int32 {
    Spans();
    var n := BigEndian(Chars(s, p, 4));
    if n < TWO_31 then n else n - TWO_32
  }

  function S8(s: seq<Byte>, p: nat): Int64 {
    Spans();
    Signed(BigEndian(Chars(s, p, 8)))
  }

  // The bytes of a quiet NaN are in the buffer before a float is read into it.
  function FloatChars(s: seq<Byte>, p: nat): (r: seq<Byte>)
    ensures |r| == 8
  {
    seq<Byte>(8, i requires 0 <= i < 8 => if p + i < |s| then s[p + i] else QUIET_NAN_BYTES[i])
  }

  function F8(s: seq<Byte>, p: nat): Word {
    Spans();
    BigEndian(FloatChars(s, p))
  }

  const QUIET_NAN_BYTES: seq<Byte> := [0, 0, 0, 0, 0, 0, 0xf8, 0x7f]

  // A negative length is not skipped.
  function Past(p: nat, length: int): nat {
    if length > 0 then p + length else p
  }

  // ----- What lies at a position -----

  predicate At(s: seq<Byte>, p: nat, w: seq<Byte>) {
    p + |w| <= |s| && s[p..p + |w|] == w
  }

  lemma Somewhere(front: seq<Byte>, w: seq<Byte>, rest: seq<Byte>)
    ensures At(front + w + rest, |front|, w)
  {
  }

  lemma Parts2(s: seq<Byte>, p: nat, a: seq<Byte>, b: seq<Byte>)
    requires At(s, p, a + b)
    ensures At(s, p, a) && At(s, p + |a|, b)
  {
    var w := a + b;
    assert s[p..p + |a|] == s[p..p + |w|][..|a|];
    assert s[p + |a|..p + |w|] == s[p..p + |w|][|a|..];
  }

  lemma Parts3(s: seq<Byte>, p: nat, a: seq<Byte>, b: seq<Byte>, c: seq<Byte>)
    requires At(s, p, a + b + c)
    ensures At(s, p, a) && At(s, p + |a|, b) && At(s, p + |a| + |b|, c)
  {
    Parts2(s, p, a + b, c);
    Parts2(s, p, a, b);
  }

  lemma Parts4(s: seq<Byte>, p: nat, a: seq<Byte>, b: seq<Byte>, c: seq<Byte>, d: seq<Byte>)
    requires At(s, p, a + b + c + d)
    ensures At(s, p, a) && At(s, p + |a|, b) && At(s, p + |a| + |b|, c) && At(s, p + |a| + |b| + |c|, d)
  {
    Parts2(s, p, a + b + c, d);
    Parts3(s, p, a, b, c);
  }

  lemma Parts5(s: seq<Byte>, p: nat, a: seq<Byte>, b: seq<Byte>, c: seq<Byte>, d: seq<Byte>, e: seq<Byte>)
    requires At(s, p, a + b + c + d + e)
    ensures At(s, p, a) && At(s, p + |a|, b) && At(s, p + |a| + |b|, c) && At(s, p + |a| + |b| + |c|, d)
    ensures At(s, p + |a| + |b| + |c| + |d|, e)
  {
    Parts2(s, p, a + b + c + d, e);
    Parts4(s, p, a, b, c, d);
  }

  lemma Parts6(s: seq<Byte>, p: nat, a: seq<Byte>, b: seq<Byte>, c: seq<Byte>, d: seq<Byte>, e: seq<Byte>, f: seq<Byte>)
    requires At(s, p, a + b + c + d + e + f)
    ensures At(s, p, a) && At(s, p + |a|, b) && At(s, p + |a| + |b|, c) && At(s, p + |a| + |b| + |c|, d)
    ensures At(s, p + |a| + |b| + |c| + |d|, e) && At(s, p + |a| + |b| + |c| + |d| + |e|, f)
  {
    Parts2(s, p, a + b + c + d + e, f);
    Parts5(s, p, a, b, c, d, e);
  }

  // Where an encoding lies, reading gives what was encoded.
  lemma ReadsU1(s: seq<Byte>, p: nat, b: Byte)
    requires At(s, p, [b])
    ensures U1(s, p) == b
  {
    assert s[p] == s[p..p + 1][0];
  }

  lemma ReadsChars(s: seq<Byte>, p: nat, w: seq<Byte>)
    requires At(s, p, w)
    ensures Chars(s, p, |w|) == w
  {
    forall i | 0 <= i < |w|
      ensures U1(s, p + i) == w[i]
    {
      assert s[p + i] == s[p..p + |w|][i];
    }
  }

  lemma ReadsS4(s: seq<Byte>, p: nat, n: Int32)
    requires At(s, p, S4Bytes(n))
    ensures S4(s, p) == n
  {
    ReadsChars(s, p, S4Bytes(n));
    Spans();
    BytesRoundTrip(n % TWO_32, 4);
  }

  // The bytes of a number, the highest first.
  lemma S4IsBigEndian(s: seq<Byte>, p: nat)
    ensures var n := ((U1(s, p) * 256 + U1(s, p + 1)) * 256 + U1(s, p + 2)) * 256 + U1(s, p + 3);
      S4(s, p) == if n < TWO_31 then n else n - TWO_32
  {
    var b := Chars(s, p, 4);
    assert b[..3][..2] == b[..2] && b[..2][..1] == b[..1] && b[..1][..0] == [];
    var b0: int, b1: int, b2: int := b[0], b[1], b[2];
    assert BigEndian(b[..1]) == b0 && BigEndian(b[..2]) == b0 * 256 + b1;
    assert BigEndian(b[..3]) == (b0 * 256 + b1) * 256 + b2;
  }

  lemma {:induction false} BytesAreWritten(b: seq<Byte>)
    ensures BytesOf(BigEndian(b), |b|) == b
  {
    if b != [] {
      var front, last := b[..|b| - 1], b[|b| - 1];
      BytesAreWritten(front);
      var n := BigEndian(b);
      assert n / 256 == BigEndian(front) && n % 256 == last;
      assert front + [last] == b;
    }
  }

  // Four bytes of the stream are those of the number read from them.
  lemma S4IsWritten(s: seq<Byte>, p: nat)
    requires p + 4 <= |s|
    ensures At(s, p, S4Bytes(S4(s, p)))
  {
    var b := Chars(s, p, 4);
    Spans();
    BytesAreWritten(b);
    var n, r := BigEndian(b), S4(s, p);
    assert r % TWO_32 == n by {
      RemainderUnique(r, TWO_32, if n < TWO_31 then 0 else -1, n);
    }
    forall i | 0 <= i < 4
      ensures s[p..p + 4][i] == b[i]
    {
      assert b[i] == U1(s, p + i);
    }
    assert s[p..p + 4] == b == S4Bytes(r);
  }

  lemma ReadsS8(s: seq<Byte>, p: nat, n: Int64)
    requires At(s, p, S8Bytes(n))
    ensures S8(s, p) == n
  {
    ReadsChars(s, p, S8Bytes(n));
    Spans();
    BytesRoundTrip(Unsigned(n), 8);
  }

  lemma ReadsF8(s: seq<Byte>, p: nat, w: Word)
    requires At(s, p, F8Bytes(w))
    ensures F8(s, p) == w
  {
    var b := F8Bytes(w);
    forall i | 0 <= i < 8
      ensures p + i < |s| && s[p + i] == b[i]
    {
      assert s[p + i] == s[p..p + 8][i];
    }
    assert FloatChars(s, p) == b;
    Spans();
    BytesRoundTrip(w, 8);
  }

  // The same, for whatever lies anywhere in the stream.
  lemma Reads(s: seq<Byte>)
    ensures forall p: nat, b: Byte {:trigger At(s, p, [b])} :: At(s, p, [b]) ==> U1(s, p) == b
    ensures forall p: nat, n: Int32 {:trigger At(s, p, S4Bytes(n))} :: At(s, p, S4Bytes(n)) ==> S4(s, p) == n
    ensures forall p: nat, n: Int64 {:trigger At(s, p, S8Bytes(n))} :: At(s, p, S8Bytes(n)) ==> S8(s, p) == n
  {
    forall p: nat, b: Byte | At(s, p, [b])
      ensures U1(s, p) == b
    {
      ReadsU1(s, p, b);
    }
    forall p: nat, n: Int32 | At(s, p, S4Bytes(n))
      ensures S4(s, p) == n
    {
      ReadsS4(s, p, n);
    }
    forall p: nat, n: Int64 | At(s, p, S8Bytes(n))
      ensures S8(s, p) == n
    {
      ReadsS8(s, p, n);
    }
  }

  // ----- Parts of the format that are read and dropped -----

  // A number, in one, four or eight bytes; a byte and, if it is zero or if it is
  // not, more; a count and that many items; a length and that many bytes. Some
  // counts size a vector, which a negative one aborts.
  datatype Layout =
    | End
    | Num(width: nat, next: Layout)
    | When(zero: bool, more: Layout, next: Layout)
    | Many(sized: bool, item: Layout, next: Layout)
    | Blob(wide: bool, next: Layout)

  // What the format holds there.
  datatype Tree =
    | Leaf
    | Word8(bytes: seq<Byte>, next: Tree)
    | Choice(flag: Byte, more: Tree, next: Tree)
    | List(items: seq<Tree>, next: Tree)
    | Raw(content: seq<Byte>, next: Tree)

  predicate Conforms(l: Layout, t: Tree)
    decreases l, 1
  {
    match l
    case End => t.Leaf?
    case Num(width, next) => t.Word8? && |t.bytes| == width && Conforms(next, t.next)
    case When(zero, more, next) =>
      t.Choice? && (if zero == (t.flag == 0) then Conforms(more, t.more) else t.more.Leaf?) && Conforms(next, t.next)
    case Many(_, item, next) => t.List? && |t.items| < TWO_31 && AllConform(item, t.items) && Conforms(next, t.next)
    case Blob(_, next) => t.Raw? && |t.content| < TWO_31 && Conforms(next, t.next)
  }

  predicate AllConform(l: Layout, ts: seq<Tree>)
    decreases l, 2, |ts|
  {
    ts == [] || (Conforms(l, ts[0]) && AllConform(l, ts[1..]))
  }

  function TreeBytes(l: Layout, t: Tree): seq<Byte>
    requires Conforms(l, t)
    decreases l, 1
  {
    match l
    case End => []
    case Num(_, next) => t.bytes + TreeBytes(next, t.next)
    case When(zero, more, next) =>
      [t.flag] + (if zero == (t.flag == 0) then TreeBytes(more, t.more) else []) + TreeBytes(next, t.next)
    case Many(_, item, next) => S4Bytes(|t.items|) + TreesBytes(item, t.items) + TreeBytes(next, t.next)
    case Blob(wide, next) =>
      (if wide then S8Bytes(|t.content|) else S4Bytes(|t.content|)) + t.content + TreeBytes(next, t.next)
  }

  function TreesBytes(l: Layout, ts: seq<Tree>): seq<Byte>
    requires AllConform(l, ts)
    decreases l, 2, |ts|
  {
    if ts == [] then [] else TreeBytes(l, ts[0]) + TreesBytes(l, ts[1..])
  }

  // Where reading stops; None for the abort on a negative count.
  function Skip(l: Layout, s: seq<Byte>, p: nat): Option<nat>
    decreases l, 1
  {
    match l
    case End => Some(p)
    case Num(width, next) => Skip(next, s, p + width)
    case When(zero, more, next) =>
      if zero == (U1(s, p) == 0) then
        var q := Skip(more, s, p + 1);
        if q.None? then None else Skip(next, s, q.value)
      else Skip(next, s, p + 1)
    case Many(sized, item, next) =>
      var n := S4(s, p);
      if sized && n < 0 then None
      else
        var q := SkipMany(item, s, p + 4, if n > 0 then n else 0);
        if q.None? then None else Skip(next, s, q.value)
    case Blob(wide, next) =>
      if wide then Skip(next, s, Past(p + 8, S8(s, p))) else Skip(next, s, Past(p + 4, S4(s, p)))
  }

  function SkipMany(l: Layout, s: seq<Byte>, p: nat, k: nat): Option<nat>
    decreases l, 2, k
  {
    if k == 0 then Some(p)
    else
      var q := Skip(l, s, p);
      if q.None? then None else SkipMany(l, s, q.value, k - 1)
  }

  // Reading and dropping stops exactly after what the format holds.
  lemma {:induction false} SkipRoundTrip(l: Layout, t: Tree, s: seq<Byte>, p: nat)
    requires Conforms(l, t) && At(s, p, TreeBytes(l, t))
    ensures Skip(l, s, p) == Some(p + |TreeBytes(l, t)|)
    decreases l, 1
  {
    hide At, U1, S4, S8, S4Bytes, S8Bytes;
    Reads(s);
    match l
    case End =>
    case Num(width, next) =>
      Parts2(s, p, t.bytes, TreeBytes(next, t.next));
      SkipRoundTrip(next, t.next, s, p + width);
    case When(zero, more, next) =>
      var m := if zero == (t.flag == 0) then TreeBytes(more, t.more) else [];
      Parts3(s, p, [t.flag], m, TreeBytes(next, t.next));
      if zero == (t.flag == 0) {
        SkipRoundTrip(more, t.more, s, p + 1);
      }
      SkipRoundTrip(next, t.next, s, p + 1 + |m|);
    case Many(_, item, next) =>
      var m := TreesBytes(item, t.items);
      Parts3(s, p, S4Bytes(|t.items|), m, TreeBytes(next, t.next));
      SkipManyRoundTrip(item, t.items, s, p + 4);
      SkipRoundTrip(next, t.next, s, p + 4 + |m|);
    case Blob(wide, next) =>
      var k := if wide then S8Bytes(|t.content|) else S4Bytes(|t.content|);
      Parts3(s, p, k, t.content, TreeBytes(next, t.next));
      SkipRoundTrip(next, t.next, s, p + |k| + |t.content|);
  }

  lemma {:induction false} SkipManyRoundTrip(l: Layout, ts: seq<Tree>, s: seq<Byte>, p: nat)
    requires AllConform(l, ts) && At(s, p, TreesBytes(l, ts))
    ensures SkipMany(l, s, p, |ts|) == Some(p + |TreesBytes(l, ts)|)
    decreases l, 2, |ts|
  {
    hide At;
    if ts != [] {
      Parts2(s, p, TreeBytes(l, ts[0]), TreesBytes(l, ts[1..]));
      SkipRoundTrip(l, ts[0], s, p);
      SkipManyRoundTrip(l, ts[1..], s, p + |TreeBytes(l, ts[0])|);
    }
  }

  // ----- The reader -----

  class BirFileReader {
    const bytes: seq<Byte>
    var pos: nat

    constructor (bytes: seq<Byte>)
      ensures this.bytes == bytes && pos == 0
    {
      this.bytes, pos := bytes, 0;
    }

    method ReadU1() returns (v: Byte)
      modifies this
      ensures v == U1(bytes, old(pos)) && pos == old(pos) + 1
    {
      v := U1(bytes, pos);
      pos := pos + 1;
    }

    method ReadS4be() returns (v: Int32)
      modifies this
      ensures v == S4(bytes, old(pos)) && pos == old(pos) + 4
    {
      v := S4(bytes, pos);
      pos := pos + 4;
    }

    method ReadS8be() returns (v: Int64)
      modifies this
      ensures v == S8(bytes, old(pos)) && pos == old(pos) + 8
    {
      v := S8(bytes, pos);
      pos := pos + 8;
    }

    method ReadS8bef() returns (v: Word)
      modifies this
      ensures v == F8(bytes, old(pos)) && pos == old(pos) + 8
    {
      v := F8(bytes, pos);
      pos := pos + 8;
    }

    method ReadChars(length: nat) returns (v: seq<Byte>)
      modifies this
      ensures v == Chars(bytes, old(pos), length) && pos == old(pos) + length
    {
      v := Chars(bytes, pos, length);
      pos := pos + length;
    }

    method Ignore(length: int)
      modifies this
      ensures pos == Past(old(pos), length)
    {
      if length > 0 {
        pos := pos + length;
      }
    }

    // Code that reads a part of the format and drops it; false for its abort.
    method ReadAndDrop(l: Layout) returns (ok: bool)
      modifies this
      ensures ok == Skip(l, bytes, old(pos)).Some?
      ensures ok ==> Some(pos) == Skip(l, bytes, old(pos))
      decreases l
    {
      match l {
        case End => return true;
        case Num(width, next) =>
          pos := pos + width;
          ok := ReadAndDrop(next);
        case When(zero, more, next) =>
          var flag := ReadU1();
          if zero == (flag == 0) {
            var done := ReadAndDrop(more);
            if !done {
              return false;
            }
          }
          ok := ReadAndDrop(next);
        case Many(sized, item, next) =>
          var n := ReadS4be();
          if sized && n < 0 {
            return false;
          }
          ghost var start := pos;
          var count := if n > 0 then n else 0;
          var i := 0;
          while i < count
            invariant i <= count
            invariant SkipMany(item, bytes, start, count) == SkipMany(item, bytes, pos, count - i)
          {
            var done := ReadAndDrop(item);
            if !done {
              return false;
            }
            i := i + 1;
          }
          ok := ReadAndDrop(next);
        case Blob(wide, next) =>
          if wide {
            var n := ReadS8be();
            Ignore(n);
          } else {
            var n := ReadS4be();
            Ignore(n);
          }
          ok := ReadAndDrop(next);
      }
    }
  }
}

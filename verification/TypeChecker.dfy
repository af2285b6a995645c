// The compatibility check on type descriptors such as "AI041024": a letter for the
// kind of structure and, for an array, a letter for its member type, the number of
// digits of its length in two radix-32 digits, and those digits. A map is an M
// before the descriptor of its members. None is a panic.
module TypeChecker {
  import opened Options

  const BASE_TYPE_INDEX: nat := 0
  const ARRAY_MEMBER_TYPE_INDEX: nat := 1
  const ARRAY_SIZE_LSB_INDEX: nat := 2
  const ARRAY_SIZE_MSB_INDEX: nat := 3
  const SIZE_INDEX: nat := 4
  const TWO_31: int := 0x8000_0000

  function Nth(s: string, i: nat): Option<char> {
    if i < |s| then Some(s[i]) else None
  }

  // ----- Reading 32-bit integers -----

  function DigitValue(c: char, radix: nat): Option<nat> {
    var d :=
      if '0' <= c <= '9' then c as nat - '0' as nat
      else if 'a' <= c <= 'z' then c as nat - 'a' as nat + 10
      else if 'A' <= c <= 'Z' then c as nat - 'A' as nat + 10
      else radix;
    if d < radix then Some(d) else None
  }

  // One more digit; None if it is no digit or the value leaves 32 bits.
  function WithDigit(n: int, c: char, radix: nat, negative: bool): Option<int> {
    var d := DigitValue(c, radix);
    if d.None? then None
    else
      var next := if negative then n * radix - d.value else n * radix + d.value;
      if -TWO_31 <= next < TWO_31 then Some(next) else None
  }

  function Digits(n: int, s: string, radix: nat, negative: bool): Option<int>
    decreases |s|
  {
    if s == "" then Some(n)
    else
      var next := WithDigit(n, s[0], radix, negative);
      if next.None? then None else Digits(next.value, s[1..], radix, negative)
  }

  // An optional sign and at least one digit.
  function ParseInt(s: string, radix: nat): Option<int> {
    if s == "" || s == "+" || s == "-" then None
    else if s[0] == '+' then Digits(0, s[1..], radix, false)
    else if s[0] == '-' then Digits(0, s[1..], radix, true)
    else Digits(0, s, radix, false)
  }

  // ----- The length of an array -----

  // The length field, read through its digit count.
  function SizeField(s: string): Option<int> {
    if |s| < SIZE_INDEX then None
    else
      var count := ParseInt(s[ARRAY_SIZE_LSB_INDEX..SIZE_INDEX], 32);
      if count.None? then None
      else
        var k := if count.value > 0 then count.value else 0;
        if |s| < SIZE_INDEX + k then None else ParseInt(s[SIZE_INDEX..SIZE_INDEX + k], 10)
  }

  method ComputeSize(s: string) returns (r: Option<int>)
    ensures r == SizeField(s)
  {
    if ARRAY_SIZE_MSB_INDEX >= |s| {
      return None;
    }
    var hexBits := "";
    hexBits := hexBits + [s[ARRAY_SIZE_LSB_INDEX]];
    hexBits := hexBits + [s[ARRAY_SIZE_MSB_INDEX]];
    assert hexBits == s[ARRAY_SIZE_LSB_INDEX..SIZE_INDEX];
    var bits := ParseInt(hexBits, 32);
    if bits.None? {
      return None;
    }
    var lengthBits := "";
    var i := 0;
    while i < bits.value
      invariant 0 <= i && (i > 0 ==> i <= bits.value)
      invariant SIZE_INDEX + i <= |s| && lengthBits == s[SIZE_INDEX..SIZE_INDEX + i]
    {
      if i + SIZE_INDEX >= |s| {
        return None;
      }
      lengthBits := lengthBits + [s[i + SIZE_INDEX]];
      i := i + 1;
    }
    r := ParseInt(lengthBits, 10);
  }

  function TypeSize(s: string): Option<int> {
    var c := Nth(s, ARRAY_MEMBER_TYPE_INDEX);
    if c.None? then None
    else
      match c.value
      case 'B' => Some(1)
      case 'I' => Some(8)
      case 'F' => Some(8)
      case 'S' => Some(12)
      case 'X' => Some(16)
      case _ => None
  }

  // ----- The check -----

  // May a value of the source type be cast to the destination type? Each map level
  // drops one character.
  function SameType(source: string, destination: string): Option<bool>
    decreases |source|
  {
    if source == destination then Some(true)
    else if Nth(source, BASE_TYPE_INDEX) != Nth(destination, BASE_TYPE_INDEX) then Some(false)
    else
      match Nth(source, BASE_TYPE_INDEX)
      case Some('A') => IsSameArrayType(source, destination)
      case Some('M') => SameType(source[1..], destination[1..])
      case _ => Some(false)
  }

  function IsSameArrayType(source: string, destination: string): Option<bool> {
    if Nth(source, ARRAY_MEMBER_TYPE_INDEX) != Nth(destination, ARRAY_MEMBER_TYPE_INDEX) then
      var a, b := TypeSize(source), TypeSize(destination);
      if a.None? || b.None? then None
      else if a.value > b.value then Some(false)
      else ShorterOrEqual(source, destination)
    else ShorterOrEqual(source, destination)
  }

  function ShorterOrEqual(source: string, destination: string): Option<bool> {
    var a, b := SizeField(source), SizeField(destination);
    if a.None? || b.None? then None else Some(a.value <= b.value)
  }

  // ----- What it decides -----

  // An array descriptor has a supported member type and a length that can be read.
  predicate WellFormed(s: string) {
    match Nth(s, 0)
    case Some('A') => TypeSize(s).Some? && SizeField(s).Some?
    case Some('M') => WellFormed(s[1..])
    case _ => true
  }

  predicate IsArray(s: string) {
    Nth(s, 0) == Some('A')
  }

  // The number of map levels, and the descriptor inside them.
  function Levels(s: string): nat {
    if Nth(s, 0) == Some('M') then 1 + Levels(s[1..]) else 0
  }

  function Inside(s: string): string {
    if Nth(s, 0) == Some('M') then Inside(s[1..]) else s
  }

  predicate Fits(a: string, b: string) {
    a == b ||
    (IsArray(a) && IsArray(b) && WellFormed(a) && WellFormed(b)
     && TypeSize(a).value <= TypeSize(b).value && SizeField(a).value <= SizeField(b).value)
  }

  // The same number of map levels and, inside them, either the same descriptor or
  // arrays whose members are no larger and no more numerous.
  predicate Compatible(s: string, d: string) {
    Levels(s) == Levels(d) && Fits(Inside(s), Inside(d))
  }

  lemma {:induction false} SameTypeIsCompatible(s: string, d: string)
    requires WellFormed(s) && WellFormed(d)
    ensures SameType(s, d) == Some(Compatible(s, d))
    decreases |s|
  {
    if s != d && Nth(s, 0) == Nth(d, 0) {
      if Nth(s, 0) == Some('M') {
        assert s == ['M'] + s[1..] && d == ['M'] + d[1..];
        SameTypeIsCompatible(s[1..], d[1..]);
      } else if IsArray(s) && Nth(s, 1) == Nth(d, 1) {
        assert TypeSize(s) == TypeSize(d);
      }
    } else if s != d {
      InsideDiffers(s, d);
    }
  }

  lemma InsideDiffers(s: string, d: string)
    requires Nth(s, 0) != Nth(d, 0)
    ensures !Compatible(s, d)
  {
  }

  lemma {:induction false} InsideIsWellFormed(s: string)
    requires WellFormed(s)
    ensures WellFormed(Inside(s))
    decreases |s|
  {
    if Nth(s, 0) == Some('M') {
      InsideIsWellFormed(s[1..]);
    }
  }

  // On well-formed descriptors the check never panics, and it is a preorder.
  lemma SameTypeIsPreorder(a: string, b: string, c: string)
    requires WellFormed(a) && WellFormed(b) && WellFormed(c)
    ensures SameType(a, b).Some?
    ensures SameType(a, a) == Some(true)
    ensures SameType(a, b) == Some(true) && SameType(b, c) == Some(true) ==> SameType(a, c) == Some(true)
  {
    SameTypeIsCompatible(a, b);
    SameTypeIsCompatible(b, c);
    SameTypeIsCompatible(a, c);
  }

  // It is no order: exactly these descriptors are compatible both ways.
  lemma CompatibleBothWaysIff(a: string, b: string)
    requires WellFormed(a) && WellFormed(b)
    ensures SameType(a, b) == Some(true) && SameType(b, a) == Some(true) <==>
      Levels(a) == Levels(b) &&
      (Inside(a) == Inside(b)
       || (IsArray(Inside(a)) && IsArray(Inside(b)) && TypeSize(Inside(a)) == TypeSize(Inside(b))
           && SizeField(Inside(a)) == SizeField(Inside(b))))
  {
    SameTypeIsCompatible(a, b);
    SameTypeIsCompatible(b, a);
    InsideIsWellFormed(a);
    InsideIsWellFormed(b);
  }

  // ----- Writing descriptors -----

  datatype Member = BooleanMember | IntMember | FloatMember | StringMember | AnyMember

  // A type that is neither an array nor a map is one letter.
  datatype Descriptor = Plain(letter: char) | ArrayOf(member: Member, length: nat) | MapOf(values: Descriptor)

  function Letter(m: Member): char {
    match m
    case BooleanMember => 'B'
    case IntMember => 'I'
    case FloatMember => 'F'
    case StringMember => 'S'
    case AnyMember => 'X'
  }

  function Width(m: Member): nat {
    match m
    case BooleanMember => 1
    case IntMember => 8
    case FloatMember => 8
    case StringMember => 12
    case AnyMember => 16
  }

  function DecimalDigit(d: nat): (c: char)
    requires d < 10
    ensures DigitValue(c, 10) == Some(d) && c != '+' && c != '-'
  {
    ['0', '1', '2', '3', '4', '5', '6', '7', '8', '9'][d]
  }

  function Decimal(n: nat): (s: string)
    ensures s != ""
  {
    (if n < 10 then "" else Decimal(n / 10)) + [DecimalDigit(n % 10)]
  }

  // The digit count of a 32-bit length is at most ten.
  function CountField(k: nat): string
    requires k <= 10
  {
    ['0', if k == 10 then 'a' else DecimalDigit(k)]
  }

  predicate Writable(d: Descriptor) {
    match d
    case Plain(c) => c != 'A' && c != 'M'
    case ArrayOf(_, n) => n < TWO_31
    case MapOf(values) => Writable(values)
  }

  function Encode(d: Descriptor): string
    requires Writable(d)
  {
    match d
    case Plain(c) => [c]
    case ArrayOf(m, n) =>
      DecimalIsShort(n);
      ['A', Letter(m)] + CountField(|Decimal(n)|) + Decimal(n)
    case MapOf(values) => ['M'] + Encode(values)
  }

  lemma {:induction false} DecimalLength(n: nat, k: nat, bound: nat)
    requires k > 0 && n < bound && bound == Pow10(k)
    ensures |Decimal(n)| <= k
    decreases k
  {
    if n >= 10 {
      DecimalLength(n / 10, k - 1, Pow10(k - 1));
    }
  }

  function Pow10(k: nat): nat {
    if k == 0 then 1 else 10 * Pow10(k - 1)
  }

  lemma DecimalIsShort(n: nat)
    requires n < TWO_31
    ensures |Decimal(n)| <= 10
  {
    assert Pow10(5) == 100000;
    assert Pow10(10) == 10_000_000_000;
    DecimalLength10(n);
  }

  lemma DecimalLength10(n: nat)
    requires n < 10_000_000_000 == Pow10(10)
    ensures |Decimal(n)| <= 10
  {
    DecimalLength(n, 10, Pow10(10));
  }

  lemma {:induction false} DigitsInTwo(n: int, a: string, b: string, radix: nat, neg: bool)
    ensures Digits(n, a + b, radix, neg)
      == if Digits(n, a, radix, neg).None? then None else Digits(Digits(n, a, radix, neg).value, b, radix, neg)
    decreases |a|
  {
    if a == "" {
      assert a + b == b;
    } else {
      assert (a + b)[1..] == a[1..] + b;
      var next := WithDigit(n, a[0], radix, neg);
      if next.Some? {
        DigitsInTwo(next.value, a[1..], b, radix, neg);
      }
    }
  }

  lemma {:induction false} DecimalRoundTrip(n: nat)
    requires n < TWO_31
    ensures Digits(0, Decimal(n), 10, false) == Some(n)
    ensures Decimal(n)[0] != '+' && Decimal(n)[0] != '-'
    decreases n
  {
    var last := [DecimalDigit(n % 10)];
    assert last[1..] == "";
    if n < 10 {
      assert "" + last == last;
    } else {
      DecimalRoundTrip(n / 10);
      DigitsInTwo(0, Decimal(n / 10), last, 10, false);
    }
  }

  const SMALL_DIGITS: string := "0123456789abcdefghijklmnopqrstuvwxyz"
  const LARGE_DIGITS: string := "0123456789ABCDEFGHIJKLMNOPQRSTUVWXYZ"

  // In any radix up to 36 a digit, in either case, has its place for its value, and no
  // other character is a digit.
  lemma DigitsHaveTheirPlace(c: char, radix: nat, d: nat)
    requires radix <= 36
    ensures |SMALL_DIGITS| == 36 == |LARGE_DIGITS|
    ensures DigitValue(c, radix) == Some(d) <==> d < radix && (SMALL_DIGITS[d] == c || LARGE_DIGITS[d] == c)
  {
    SmallDigits(d);
    LargeDigits(d);
  }

  lemma SmallDigits(d: nat)
    ensures d < 10 ==> SMALL_DIGITS[d] as int == '0' as int + d
    ensures 10 <= d < 36 ==> SMALL_DIGITS[d] as int == 'a' as int + d - 10
  {
  }

  lemma LargeDigits(d: nat)
    ensures d < 10 ==> LARGE_DIGITS[d] as int == '0' as int + d
    ensures 10 <= d < 36 ==> LARGE_DIGITS[d] as int == 'A' as int + d - 10
  {
  }

  lemma {:induction false} NegativeRoundTrip(n: nat)
    requires n <= TWO_31
    ensures Digits(0, Decimal(n), 10, true) == Some(0 - n)
    decreases n
  {
    var last := [DecimalDigit(n % 10)];
    assert last[1..] == "";
    if n < 10 {
      assert "" + last == last;
    } else {
      NegativeRoundTrip(n / 10);
      DigitsInTwo(0, Decimal(n / 10), last, 10, true);
    }
  }

  // Every 32-bit integer is read back from its decimal digits and an optional sign.
  lemma SignedRoundTrip(n: int)
    requires -TWO_31 <= n < TWO_31
    ensures n >= 0 ==> ParseInt(Decimal(n), 10) == Some(n) && ParseInt("+" + Decimal(n), 10) == Some(n)
    ensures n <= 0 ==> ParseInt("-" + Decimal(-n), 10) == Some(n)
  {
    if n >= 0 {
      DecimalRoundTrip(n);
      assert ("+" + Decimal(n))[1..] == Decimal(n);
    }
    if n <= 0 {
      NegativeRoundTrip(-n);
      assert ("-" + Decimal(-n))[1..] == Decimal(-n);
    }
  }

  // Whatever two characters come before the digit count and whatever characters
  // come after the digits, the length read is the one written.
  lemma SizeRoundTrip(front: string, n: nat, rest: string)
    requires |front| == 2 && n < TWO_31
    ensures |Decimal(n)| <= 10
    ensures SizeField(front + CountField(|Decimal(n)|) + Decimal(n) + rest) == Some(n)
  {
    DecimalIsShort(n);
    DecimalRoundTrip(n);
    var digits := Decimal(n);
    var count := CountField(|digits|);
    var s := front + count + digits + rest;
    assert s[ARRAY_SIZE_LSB_INDEX..SIZE_INDEX] == count;
    CountRoundTrip(|digits|);
    assert s[SIZE_INDEX..SIZE_INDEX + |digits|] == digits;
  }

  lemma CountRoundTrip(k: nat)
    requires k <= 10
    ensures ParseInt(CountField(k), 32) == Some(k)
  {
    var s := CountField(k);
    assert DigitValue('0', 32) == Some(0);
    assert DigitValue(s[1], 32) == Some(k);
    assert s[1..][1..] == "";
    assert WithDigit(0, s[0], 32, false) == Some(0);
    assert WithDigit(0, s[1..][0], 32, false) == Some(k);
    assert Digits(0, s[1..], 32, false) == Digits(k, s[1..][1..], 32, false) == Some(k);
    assert s != "+" && s != "-" && s[0] == '0';
  }

  // The relation the check is meant to decide, on types.
  predicate Castable(a: Descriptor, b: Descriptor) {
    match (a, b)
    case (Plain(c), Plain(e)) => c == e
    case (ArrayOf(m, n), ArrayOf(m', n')) => Width(m) <= Width(m') && n <= n'
    case (MapOf(x), MapOf(y)) => Castable(x, y)
    case _ => false
  }

  lemma ArrayFields(m: Member, n: nat)
    requires Writable(ArrayOf(m, n))
    ensures var s := Encode(ArrayOf(m, n));
      && Nth(s, 0) == Some('A') && Nth(s, 1) == Some(Letter(m))
      && TypeSize(s) == Some(Width(m)) && SizeField(s) == Some(n)
  {
    SizeRoundTrip(['A', Letter(m)], n, "");
    var s := Encode(ArrayOf(m, n));
    assert ['A', Letter(m)] + CountField(|Decimal(n)|) + Decimal(n) + "" == s;
  }

  // On written descriptors the check decides exactly that relation, so the true
  // lengths are what it compares.
  lemma {:induction false} SameTypeDecidesCastable(a: Descriptor, b: Descriptor)
    requires Writable(a) && Writable(b)
    ensures SameType(Encode(a), Encode(b)) == Some(Castable(a, b))
    decreases a
  {
    if a.ArrayOf? {
      ArrayFields(a.member, a.length);
    }
    if b.ArrayOf? {
      ArrayFields(b.member, b.length);
    }
    if a.MapOf? && b.MapOf? {
      SameTypeDecidesCastable(a.values, b.values);
      assert Encode(a)[1..] == Encode(a.values);
      assert Encode(b)[1..] == Encode(b.values);
    }
  }
}

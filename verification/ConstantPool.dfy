// The constant pool of a BIR file: entries of seven kinds, read one after another,
// and the typed lookups.
module ConstantPools {
  import opened Options
  import opened Words
  import opened Streams

  // ----- Entries -----

  // What a shape keeps beyond its header.
  datatype Body =
    | NoBody
    | AnyFunction
    | Invokable(count: Int32, params: seq<Int32>, rest: Option<Int32>, result: Int32)
    | Constrained(constraint: Int32)
    | ArrayBody(state: Byte, size: Int32, element: Int32)

  datatype Shape = Shape(length: Int32, tag: Byte, name: Int32, flag: Int32, special: Int32, body: Body)

  datatype Entry =
    | IntEntry(n: Int64)
    | FloatEntry(f: Word)
    | BooleanEntry(b: Byte)
    | StringEntry(s: seq<Byte>)
    | PackageEntry(org: Int32, name: Int32, version: Int32)
    | ByteEntry(c: Int32)
    | ShapeEntry(shape: Shape)

  const TAG_INTEGER: Byte := 1
  const TAG_FLOAT: Byte := 2
  const TAG_BOOLEAN: Byte := 3
  const TAG_STRING: Byte := 4
  const TAG_PACKAGE: Byte := 5
  const TAG_BYTE: Byte := 6
  const TAG_SHAPE: Byte := 7

  const TYPE_TAG_INT: Byte := 1
  const TYPE_TAG_BYTE: Byte := 2
  const TYPE_TAG_FLOAT: Byte := 3
  const TYPE_TAG_DECIMAL: Byte := 4
  const TYPE_TAG_STRING: Byte := 5
  const TYPE_TAG_BOOLEAN: Byte := 6
  const TYPE_TAG_XML: Byte := 8
  const TYPE_TAG_TABLE: Byte := 9
  const TYPE_TAG_NIL: Byte := 10
  const TYPE_TAG_ANYDATA: Byte := 11
  const TYPE_TAG_RECORD: Byte := 12
  const TYPE_TAG_TYPEDESC: Byte := 13
  const TYPE_TAG_STREAM: Byte := 14
  const TYPE_TAG_MAP: Byte := 15
  const TYPE_TAG_INVOKABLE: Byte := 16
  const TYPE_TAG_ANY: Byte := 17
  const TYPE_TAG_ARRAY: Byte := 19
  const TYPE_TAG_UNION: Byte := 20
  const TYPE_TAG_INTERSECTION: Byte := 21
  const TYPE_TAG_ERROR: Byte := 28
  const TYPE_TAG_TUPLE: Byte := 30
  const TYPE_TAG_FUTURE: Byte := 31
  const TYPE_TAG_FINITE: Byte := 32
  const TYPE_TAG_OBJECT: Byte := 33
  const TYPE_TAG_SIGNED32_INT: Byte := 39
  const TYPE_TAG_UNSIGNED8_INT: Byte := 44
  const TYPE_TAG_CHAR_STRING: Byte := 45
  const TYPE_TAG_PARAMETERIZED_TYPE: Byte := 52

  // ----- The parts of a shape that are dropped -----

  const ONE_S4: Layout := Num(4, End)
  const TYPE_ID_SET: Layout := Num(4, Num(4, Num(1, End)))
  const ATTACHED_FUNCTION: Layout := Num(4, Num(8, Num(4, End)))
  const DOCUMENTED_FIELD: Layout := Num(4, Num(8, Many(false, ONE_S4, ONE_S4)))

  function TypeIds(): Layout {
    Many(true, TYPE_ID_SET, Many(true, TYPE_ID_SET, End))
  }

  // What follows the header of a shape with a given type tag.
  datatype BodyKind =
    | InvokableKind | ArrayKind | ConstrainedKind(dropped: Layout) | DroppedKind(dropped: Layout) | Unsupported

  function KindOf(tag: Byte): BodyKind {
    if tag == TYPE_TAG_INVOKABLE then InvokableKind
    else if tag == TYPE_TAG_ARRAY then ArrayKind
    else if tag == TYPE_TAG_MAP || tag == TYPE_TAG_TYPEDESC || tag == TYPE_TAG_FUTURE || tag == TYPE_TAG_XML then
      ConstrainedKind(End)
    else if tag == TYPE_TAG_STREAM then ConstrainedKind(When(false, ONE_S4, End))
    else if tag == TYPE_TAG_TABLE then
      ConstrainedKind(When(false, Many(true, ONE_S4, End), When(false, ONE_S4, End)))
    else if tag == TYPE_TAG_ERROR then DroppedKind(Num(4, Num(4, Num(4, TypeIds()))))
    else if tag == TYPE_TAG_PARAMETERIZED_TYPE then DroppedKind(Num(4, ONE_S4))
    else if tag == TYPE_TAG_OBJECT then
      DroppedKind(Num(1, Num(4, Num(4, Num(1, Num(1,
        Many(true, DOCUMENTED_FIELD,
        When(false, ATTACHED_FUNCTION, When(false, ATTACHED_FUNCTION,
        Many(true, ATTACHED_FUNCTION, Many(true, ONE_S4, TypeIds())))))))))))
    else if tag == TYPE_TAG_UNION then
      DroppedKind(Num(1, When(false, Num(4, ONE_S4),
        Many(true, ONE_S4, Many(true, ONE_S4,
        When(false, Num(4, Num(4, Many(true, ONE_S4, End))), End))))))
    else if tag == TYPE_TAG_TUPLE then DroppedKind(Many(true, ONE_S4, When(false, ONE_S4, End)))
    else if tag == TYPE_TAG_INTERSECTION then DroppedKind(Many(true, ONE_S4, ONE_S4))
    else if tag == TYPE_TAG_RECORD then
      DroppedKind(Num(4, Num(4, Num(1, Num(4,
        Many(true, DOCUMENTED_FIELD, When(false, ATTACHED_FUNCTION, Many(true, ONE_S4, End))))))))
    else if tag == TYPE_TAG_FINITE then
      DroppedKind(Num(4, Num(8, Many(false, Num(4, Many(false, Num(1, End), End)), End))))
    else if 1 <= tag <= TYPE_TAG_PARAMETERIZED_TYPE then DroppedKind(End)
    else Unsupported
  }

  // ----- Reading, as a function of the stream -----

  // What was read and where reading stopped, or the reader's abort.
  datatype Parsed<T> = Got(value: T, next: nat) | Aborts {
    predicate IsFailure() {
      Aborts?
    }

    function PropagateFailure<U>(): Parsed<U>
      requires Aborts?
    {
      Aborts
    }

    function Extract(): (T, nat)
      requires Got?
    {
      (value, next)
    }
  }

  function Found<T>(o: Option<T>, p: nat): Parsed<T> {
    if o.Some? then Got(o.value, p) else Aborts
  }

  function Count(n: Int32): nat {
    if n > 0 then n else 0
  }

  function Int32s(s: seq<Byte>, p: nat, k: nat): (r: seq<Int32>)
    ensures |r| == k
  {
    seq<Int32>(k, i requires 0 <= i < k => S4(s, p + 4 * i))
  }

  function ParseInvokable(s: seq<Byte>, p: nat): Parsed<Body> {
    if U1(s, p) != 0 then Got(AnyFunction, p + 1)
    else
      var k := Count(S4(s, p + 1));
      var q := p + 5 + 4 * k;
      var params := Int32s(s, p + 5, k);
      if U1(s, q) != 0 then Got(Invokable(S4(s, p + 1), params, Some(S4(s, q + 1)), S4(s, q + 5)), q + 9)
      else Got(Invokable(S4(s, p + 1), params, None, S4(s, q + 1)), q + 5)
  }

  function Dropped(l: Layout, s: seq<Byte>, p: nat, b: Body): Parsed<Body> {
    var q := Skip(l, s, p);
    if q.None? then Aborts else Got(b, q.value)
  }

  function ParseBody(tag: Byte, s: seq<Byte>, p: nat): Parsed<Body> {
    match KindOf(tag)
    case InvokableKind => ParseInvokable(s, p)
    case ArrayKind => Got(ArrayBody(U1(s, p), S4(s, p + 1), S4(s, p + 5)), p + 9)
    case ConstrainedKind(l) => Dropped(l, s, p + 4, Constrained(S4(s, p)))
    case DroppedKind(l) => Dropped(l, s, p, NoBody)
    case Unsupported => Aborts
  }

  function ParseShape(s: seq<Byte>, p: nat): Parsed<Shape> {
    match ParseBody(U1(s, p + 4), s, p + 21)
    case Got(b, q) =>
      Got(Shape(S4(s, p), U1(s, p + 4), S4(s, p + 5), Truncated(S8(s, p + 9)), S4(s, p + 17), b), q)
    case Aborts => Aborts
  }

  // An entry of no known tag is passed over with its tag alone.
  function ParseEntry(s: seq<Byte>, p: nat): Parsed<Option<Entry>> {
    var tag := U1(s, p);
    if tag == TAG_INTEGER then Got(Some(IntEntry(S8(s, p + 1))), p + 9)
    else if tag == TAG_FLOAT then Got(Some(FloatEntry(F8(s, p + 1))), p + 9)
    else if tag == TAG_BOOLEAN then Got(Some(BooleanEntry(U1(s, p + 1))), p + 2)
    else if tag == TAG_STRING then
      var k := S4(s, p + 1);
      if k < 0 then Aborts else Got(Some(StringEntry(Chars(s, p + 5, k))), p + 5 + k)
    else if tag == TAG_PACKAGE then Got(Some(PackageEntry(S4(s, p + 1), S4(s, p + 5), S4(s, p + 9))), p + 13)
    else if tag == TAG_BYTE then Got(Some(ByteEntry(S4(s, p + 1))), p + 5)
    else if tag == TAG_SHAPE then
      match ParseShape(s, p + 1)
      case Got(shape, q) => Got(Some(ShapeEntry(shape)), q)
      case Aborts => Aborts
    else Got(None, p + 1)
  }

  function ParseEntries(s: seq<Byte>, p: nat, k: nat): Parsed<seq<Entry>> {
    if k == 0 then Got([], p)
    else
      match ParseEntries(s, p, k - 1)
      case Aborts => Aborts
      case Got(before, q) =>
        match ParseEntry(s, q)
        case Aborts => Aborts
        case Got(e, r) => Got(if e.Some? then before + [e.value] else before, r)
  }

  function ParsePool(s: seq<Byte>, p: nat): Parsed<seq<Entry>> {
    if S4(s, p) < 0 then Aborts else ParseEntries(s, p + 4, S4(s, p))
  }

  lemma {:induction false} AbortsForGood(s: seq<Byte>, p: nat, k: nat, n: nat)
    requires k <= n && ParseEntries(s, p, k).Aborts?
    ensures ParseEntries(s, p, n).Aborts?
    decreases n - k
  {
    if k < n {
      AbortsForGood(s, p, k + 1, n);
    }
  }

  // ----- The format -----

  // An entry with the parts that reading drops.
  datatype BodyForm =
    | AnyForm(flag: Byte)
    | InvokableForm(params: seq<Int32>, hasRest: Byte, rest: Int32, result: Int32)
    | ArrayForm(state: Byte, size: Int32, element: Int32)
    | ConstrainedForm(constraint: Int32, tree: Tree)
    | DroppedForm(tree: Tree)

  datatype EntryForm =
    | Plain(e: Entry)
    | ShapeForm(length: Int32, tag: Byte, name: Int32, flag: Int64, special: Int32, body: BodyForm)

  predicate OkBody(tag: Byte, b: BodyForm) {
    match b
    case AnyForm(flag) => KindOf(tag).InvokableKind? && flag != 0
    case InvokableForm(params, _, _, _) => KindOf(tag).InvokableKind? && |params| < TWO_31
    case ArrayForm(_, _, _) => KindOf(tag).ArrayKind?
    case ConstrainedForm(_, t) => KindOf(tag).ConstrainedKind? && Conforms(KindOf(tag).dropped, t)
    case DroppedForm(t) => KindOf(tag).DroppedKind? && Conforms(KindOf(tag).dropped, t)
  }

  predicate OkEntry(f: EntryForm) {
    match f
    case Plain(e) => !e.ShapeEntry? && (e.StringEntry? ==> |e.s| < TWO_31)
    case ShapeForm(_, tag, _, _, _, b) => OkBody(tag, b)
  }

  function Int32sBytes(ns: seq<Int32>): (r: seq<Byte>)
    ensures |r| == 4 * |ns|
  {
    if ns == [] then [] else Int32sBytes(ns[..|ns| - 1]) + S4Bytes(ns[|ns| - 1])
  }

  function BodyBytes(tag: Byte, b: BodyForm): seq<Byte>
    requires OkBody(tag, b)
  {
    match b
    case AnyForm(flag) => [flag]
    case InvokableForm(params, hasRest, rest, result) =>
      [0] + S4Bytes(|params|) + Int32sBytes(params) + [hasRest]
      + (if hasRest != 0 then S4Bytes(rest) else []) + S4Bytes(result)
    case ArrayForm(state, size, element) => [state] + S4Bytes(size) + S4Bytes(element)
    case ConstrainedForm(c, t) => S4Bytes(c) + TreeBytes(KindOf(tag).dropped, t)
    case DroppedForm(t) => TreeBytes(KindOf(tag).dropped, t)
  }

  function EntryBytes(f: EntryForm): seq<Byte>
    requires OkEntry(f)
  {
    match f
    case Plain(IntEntry(n)) => [1] + S8Bytes(n)
    case Plain(FloatEntry(w)) => [2] + F8Bytes(w)
    case Plain(BooleanEntry(b)) => [3] + [b]
    case Plain(StringEntry(k)) => [4] + S4Bytes(|k|) + k
    case Plain(PackageEntry(o, n, v)) => [5] + S4Bytes(o) + S4Bytes(n) + S4Bytes(v)
    case Plain(ByteEntry(c)) => [6] + S4Bytes(c)
    case ShapeForm(length, tag, name, flag, special, b) =>
      [7] + (S4Bytes(length) + [tag] + S4Bytes(name) + S8Bytes(flag) + S4Bytes(special) + BodyBytes(tag, b))
  }

  function PoolBytes(fs: seq<EntryForm>): seq<Byte>
    requires forall f :: f in fs ==> OkEntry(f)
  {
    if fs == [] then [] else PoolBytes(fs[..|fs| - 1]) + EntryBytes(fs[|fs| - 1])
  }

  // What is kept of an entry.
  function BodyOf(b: BodyForm): Body
    requires b.InvokableForm? ==> |b.params| < TWO_31
  {
    match b
    case AnyForm(_) => AnyFunction
    case InvokableForm(params, hasRest, rest, result) =>
      Invokable(|params|, params, if hasRest != 0 then Some(rest) else None, result)
    case ArrayForm(state, size, element) => ArrayBody(state, size, element)
    case ConstrainedForm(c, _) => Constrained(c)
    case DroppedForm(_) => NoBody
  }

  function EntryOf(f: EntryForm): Entry
    requires OkEntry(f)
  {
    match f
    case Plain(e) => e
    case ShapeForm(length, tag, name, flag, special, b) =>
      ShapeEntry(Shape(length, tag, name, Truncated(flag), special, BodyOf(b)))
  }

  function EntriesOf(fs: seq<EntryForm>): (r: seq<Entry>)
    requires forall f :: f in fs ==> OkEntry(f)
    ensures |r| == |fs|
  {
    seq(|fs|, i requires 0 <= i < |fs| => EntryOf(fs[i]))
  }

  // ----- Reading inverts the format -----

  lemma {:induction false} Int32sRoundTrip(ns: seq<Int32>, s: seq<Byte>, p: nat)
    requires At(s, p, Int32sBytes(ns))
    ensures Int32s(s, p, |ns|) == ns
    decreases |ns|
  {
    hide At, S4, S4Bytes;
    Reads(s);
    if ns != [] {
      var front := ns[..|ns| - 1];
      Parts2(s, p, Int32sBytes(front), S4Bytes(ns[|ns| - 1]));
      Int32sRoundTrip(front, s, p);
      assert Int32s(s, p, |ns|) == Int32s(s, p, |front|) + [S4(s, p + 4 * |front|)];
    }
  }

  lemma InvokableRoundTrip(f: BodyForm, s: seq<Byte>, p: nat)
    requires f.InvokableForm? && |f.params| < TWO_31
    requires At(s, p, [0] + S4Bytes(|f.params|) + Int32sBytes(f.params) + [f.hasRest]
      + (if f.hasRest != 0 then S4Bytes(f.rest) else []) + S4Bytes(f.result))
    ensures ParseInvokable(s, p)
      == Got(BodyOf(f), p + 10 + 4 * |f.params| + if f.hasRest != 0 then 4 else 0)
  {
    hide At, U1, S4, S4Bytes, Int32s, Int32sBytes;
    Reads(s);
    Parts6(s, p, [0], S4Bytes(|f.params|), Int32sBytes(f.params), [f.hasRest],
           if f.hasRest != 0 then S4Bytes(f.rest) else [], S4Bytes(f.result));
    Int32sRoundTrip(f.params, s, p + 5);
  }

  lemma BodyRoundTrip(tag: Byte, b: BodyForm, s: seq<Byte>, p: nat)
    requires OkBody(tag, b) && At(s, p, BodyBytes(tag, b))
    ensures ParseBody(tag, s, p) == Got(BodyOf(b), p + |BodyBytes(tag, b)|)
  {
    hide At, U1, S4, S4Bytes, KindOf, ParseInvokable, Conforms, TreeBytes, Skip, Int32sBytes;
    Reads(s);
    match b
    case AnyForm(flag) => AnyRoundTrip(flag, s, p);
    case InvokableForm(_, _, _, _) => InvokableRoundTrip(b, s, p);
    case ArrayForm(state, size, element) => Parts3(s, p, [state], S4Bytes(size), S4Bytes(element));
    case ConstrainedForm(c, t) =>
      var l := KindOf(tag).dropped;
      Parts2(s, p, S4Bytes(c), TreeBytes(l, t));
      SkipRoundTrip(l, t, s, p + 4);
    case DroppedForm(t) => SkipRoundTrip(KindOf(tag).dropped, t, s, p);
  }

  lemma AnyRoundTrip(flag: Byte, s: seq<Byte>, p: nat)
    requires flag != 0 && At(s, p, [flag])
    ensures ParseInvokable(s, p) == Got(AnyFunction, p + 1)
  {
    ReadsU1(s, p, flag);
  }

  lemma EntryRoundTrip(f: EntryForm, s: seq<Byte>, p: nat)
    requires OkEntry(f) && At(s, p, EntryBytes(f))
    ensures ParseEntry(s, p) == Got(Some(EntryOf(f)), p + |EntryBytes(f)|)
  {
    hide At, U1, S4, S8, F8, S4Bytes, S8Bytes, F8Bytes, Chars, OkBody, ParseBody, BodyBytes, BodyOf;
    Reads(s);
    match f
    case Plain(IntEntry(n)) => Parts2(s, p, [TAG_INTEGER], S8Bytes(n));
    case Plain(FloatEntry(w)) =>
      Parts2(s, p, [TAG_FLOAT], F8Bytes(w));
      ReadsF8(s, p + 1, w);
    case Plain(BooleanEntry(b)) => Parts2(s, p, [TAG_BOOLEAN], [b]);
    case Plain(StringEntry(k)) =>
      Parts3(s, p, [TAG_STRING], S4Bytes(|k|), k);
      ReadsChars(s, p + 5, k);
    case Plain(PackageEntry(o, n, v)) => Parts4(s, p, [TAG_PACKAGE], S4Bytes(o), S4Bytes(n), S4Bytes(v));
    case Plain(ByteEntry(c)) => Parts2(s, p, [TAG_BYTE], S4Bytes(c));
    case ShapeForm(length, tag, name, flag, special, b) =>
      var body := BodyBytes(tag, b);
      Parts2(s, p, [TAG_SHAPE],
             S4Bytes(length) + [tag] + S4Bytes(name) + S8Bytes(flag) + S4Bytes(special) + body);
      Parts6(s, p + 1, S4Bytes(length), [tag], S4Bytes(name), S8Bytes(flag), S4Bytes(special), body);
      BodyRoundTrip(tag, b, s, p + 22);
  }

  lemma {:induction false} EntriesRoundTrip(fs: seq<EntryForm>, s: seq<Byte>, p: nat)
    requires (forall f :: f in fs ==> OkEntry(f)) && At(s, p, PoolBytes(fs))
    ensures ParseEntries(s, p, |fs|) == Got(EntriesOf(fs), p + |PoolBytes(fs)|)
    decreases |fs|
  {
    hide At, ParseEntry, EntryBytes, OkEntry, EntryOf;
    if fs != [] {
      var front, last := fs[..|fs| - 1], fs[|fs| - 1];
      Parts2(s, p, PoolBytes(front), EntryBytes(last));
      EntriesRoundTrip(front, s, p);
      EntryRoundTrip(last, s, p + |PoolBytes(front)|);
      assert EntriesOf(fs) == EntriesOf(front) + [EntryOf(last)];
    }
  }

  // Reading the encoding of a pool, wherever it is, gives the pool and stops at the
  // next byte.
  lemma PoolRoundTrip(fs: seq<EntryForm>, front: seq<Byte>, rest: seq<Byte>)
    requires |fs| < TWO_31 && forall f :: f in fs ==> OkEntry(f)
    ensures ParsePool(front + (S4Bytes(|fs|) + PoolBytes(fs)) + rest, |front|)
      == Got(EntriesOf(fs), |front| + 4 + |PoolBytes(fs)|)
  {
    hide At, S4, S4Bytes, PoolBytes, OkEntry, EntriesOf;
    var w := S4Bytes(|fs|) + PoolBytes(fs);
    var s := front + w + rest;
    Somewhere(front, w, rest);
    Reads(s);
    Parts2(s, |front|, S4Bytes(|fs|), PoolBytes(fs));
    EntriesRoundTrip(fs, s, |front| + 4);
  }

  // ----- Lookups -----

  // A type, without its name, which is random when the pool has none.
  datatype TypeDecl = SimpleType(tag: Byte) | MapType(member: Byte) | ArrayType(member: Byte, size: Int32, state: Byte)

  function EntryAt(pool: seq<Entry>, i: Int32): Option<Entry> {
    if 0 <= i < |pool| then Some(pool[i]) else None
  }

  function StringCp(pool: seq<Entry>, i: Int32): Option<seq<Byte>> {
    var e := EntryAt(pool, i);
    if e.Some? && e.value.StringEntry? then Some(e.value.s) else None
  }

  function IntCp(pool: seq<Entry>, i: Int32): Option<Int64> {
    var e := EntryAt(pool, i);
    if e.Some? && e.value.IntEntry? then Some(e.value.n) else None
  }

  function FloatCp(pool: seq<Entry>, i: Int32): Option<Word> {
    var e := EntryAt(pool, i);
    if e.Some? && e.value.FloatEntry? then Some(e.value.f) else None
  }

  function ByteCp(pool: seq<Entry>, i: Int32): Option<Byte> {
    var e := EntryAt(pool, i);
    if e.Some? && e.value.ByteEntry? && 0 <= e.value.c <= 255 then Some(e.value.c) else None
  }

  function ShapeCp(pool: seq<Entry>, i: Int32): Option<Shape> {
    var e := EntryAt(pool, i);
    if e.Some? && e.value.ShapeEntry? then Some(e.value.shape) else None
  }

  function TypeTagCp(pool: seq<Entry>, i: Int32): Option<Byte> {
    var e := ShapeCp(pool, i);
    if e.Some? then Some(e.value.tag) else None
  }

  function TypeCp(pool: seq<Entry>, i: Int32): Option<TypeDecl> {
    var e := ShapeCp(pool, i);
    if e.None? || StringCp(pool, e.value.name).None? then None
    else if e.value.tag == TYPE_TAG_MAP then
      var member := if e.value.body.Constrained? then TypeTagCp(pool, e.value.body.constraint) else None;
      if member.Some? then Some(MapType(member.value)) else None
    else if e.value.tag == TYPE_TAG_ARRAY then
      var b := e.value.body;
      var member := if b.ArrayBody? then TypeTagCp(pool, b.element) else None;
      if member.Some? && b.ArrayBody? then Some(ArrayType(member.value, b.size, b.state)) else None
    else Some(SimpleType(e.value.tag))
  }

  // The type of a function resolves, with each type it mentions.
  predicate InvocableTypeCp(pool: seq<Entry>, i: Int32) {
    var e := ShapeCp(pool, i);
    && e.Some? && e.value.body.Invokable?
    && var b := e.value.body;
      && b.count >= 0
      && (forall j :: 0 <= j < |b.params| ==> TypeCp(pool, b.params[j]).Some?)
      && TypeCp(pool, b.result).Some?
      && (b.rest.Some? ==> TypeCp(pool, b.rest.value).Some?)
  }

  // What the lookups answer, by the entries of the pool.
  lemma EntriesAreFoundIff(pool: seq<Entry>, i: Int32)
    ensures forall s: seq<Byte> :: StringCp(pool, i) == Some(s) <==> 0 <= i < |pool| && pool[i] == StringEntry(s)
    ensures forall n: Int64 :: IntCp(pool, i) == Some(n) <==> 0 <= i < |pool| && pool[i] == IntEntry(n)
    ensures forall f: Word :: FloatCp(pool, i) == Some(f) <==> 0 <= i < |pool| && pool[i] == FloatEntry(f)
    ensures forall c: Byte :: ByteCp(pool, i) == Some(c) <==> 0 <= i < |pool| && pool[i] == ByteEntry(c)
    ensures forall t: Byte :: TypeTagCp(pool, i) == Some(t) <==> ShapeOfTag(pool, i, t)
  {
  }

  predicate ShapeOfTag(pool: seq<Entry>, i: Int32, tag: Byte) {
    0 <= i < |pool| && pool[i].ShapeEntry? && pool[i].shape.tag == tag
  }

  // A shape with a name stands for this type: a mapping and an array mention the
  // shape of what they hold.
  predicate TypeAt(pool: seq<Entry>, i: Int32, t: TypeDecl) {
    && 0 <= i < |pool| && pool[i].ShapeEntry?
    && var shape := pool[i].shape;
      && 0 <= shape.name < |pool| && pool[shape.name].StringEntry?
      && match t
         case SimpleType(tag) => shape.tag == tag && tag != 15 && tag != 19
         case MapType(member) =>
           shape.tag == 15 && shape.body.Constrained? && ShapeOfTag(pool, shape.body.constraint, member)
         case ArrayType(member, size, state) =>
           shape.tag == 19 && shape.body.ArrayBody? && ShapeOfTag(pool, shape.body.element, member)
           && shape.body.size == size && shape.body.state == state
  }

  lemma TypeIsFoundIff(pool: seq<Entry>, i: Int32, t: TypeDecl)
    ensures TypeCp(pool, i) == Some(t) <==> TypeAt(pool, i, t)
  {
  }

  // There is a type at i: a named shape, and what it mentions is a shape.
  predicate HasType(pool: seq<Entry>, i: Int32) {
    && 0 <= i < |pool| && pool[i].ShapeEntry?
    && var shape := pool[i].shape;
      && 0 <= shape.name < |pool| && pool[shape.name].StringEntry?
      && (shape.tag == 15 ==> shape.body.Constrained? && IsShape(pool, shape.body.constraint))
      && (shape.tag == 19 ==> shape.body.ArrayBody? && IsShape(pool, shape.body.element))
  }

  predicate IsShape(pool: seq<Entry>, i: Int32) {
    0 <= i < |pool| && pool[i].ShapeEntry?
  }

  // The type of a function is accepted exactly when it is one, and each parameter, the
  // rest parameter and the result have a type.
  lemma InvocableIsFoundIff(pool: seq<Entry>, i: Int32)
    ensures InvocableTypeCp(pool, i) <==>
      && IsShape(pool, i) && pool[i].shape.body.Invokable? && pool[i].shape.body.count >= 0
      && (forall j :: 0 <= j < |pool[i].shape.body.params| ==> HasType(pool, pool[i].shape.body.params[j]))
      && HasType(pool, pool[i].shape.body.result)
      && (pool[i].shape.body.rest.Some? ==> HasType(pool, pool[i].shape.body.rest.value))
  {
    hide HasType, TypeCp;
    forall j: Int32
      ensures TypeCp(pool, j).Some? <==> HasType(pool, j)
    {
      HasTypeIff(pool, j);
    }
  }

  lemma HasTypeIff(pool: seq<Entry>, i: Int32)
    ensures TypeCp(pool, i).Some? <==> HasType(pool, i)
  {
  }

  // ----- The reader -----

  class ConstantPoolSet {
    var poolEntries: seq<Entry>

    constructor ()
      ensures poolEntries == []
    {
      poolEntries := [];
    }

    method ReadInvokable(reader: BirFileReader) returns (b: Body)
      modifies reader
      ensures ParseInvokable(reader.bytes, old(reader.pos)) == Got(b, reader.pos)
    {
      ghost var start := reader.pos;
      var isAnyFunction := reader.ReadU1();
      if isAnyFunction != 0 {
        return AnyFunction;
      }
      var paramCount := reader.ReadS4be();
      var params: seq<Int32> := [];
      var i := 0;
      while i < paramCount
        invariant 0 <= i <= Count(paramCount)
        invariant reader.pos == start + 5 + 4 * i && params == Int32s(reader.bytes, start + 5, i)
      {
        var param := reader.ReadS4be();
        params := params + [param];
        i := i + 1;
      }
      var hasRestType := reader.ReadU1();
      var rest := None;
      if hasRestType != 0 {
        var restTypeIndex := reader.ReadS4be();
        rest := Some(restTypeIndex);
      }
      var returnTypeIndex := reader.ReadS4be();
      b := Invokable(paramCount, params, rest, returnTypeIndex);
    }

    method ReadBody(reader: BirFileReader, tag: Byte) returns (b: Option<Body>)
      modifies reader
      ensures match ParseBody(tag, reader.bytes, old(reader.pos))
        case Got(v, next) => b == Some(v) && reader.pos == next
        case Aborts => b.None?
    {
      match KindOf(tag) {
        case InvokableKind =>
          var body := ReadInvokable(reader);
          return Some(body);
        case ArrayKind =>
          var state := reader.ReadU1();
          var size := reader.ReadS4be();
          var element := reader.ReadS4be();
          return Some(ArrayBody(state, size, element));
        case ConstrainedKind(dropped) =>
          var constraint := reader.ReadS4be();
          var ok := reader.ReadAndDrop(dropped);
          return if ok then Some(Constrained(constraint)) else None;
        case DroppedKind(dropped) =>
          var ok := reader.ReadAndDrop(dropped);
          return if ok then Some(NoBody) else None;
        case Unsupported => return None;
      }
    }

    method ReadShape(reader: BirFileReader) returns (r: Option<Shape>)
      modifies reader
      ensures match ParseShape(reader.bytes, old(reader.pos))
        case Got(v, next) => r == Some(v) && reader.pos == next
        case Aborts => r.None?
    {
      var shapeLength := reader.ReadS4be();
      var typeTag := reader.ReadU1();
      var nameIndex := reader.ReadS4be();
      var typeFlag := reader.ReadS8be();
      var typeSpecialFlag := reader.ReadS4be();
      var body := ReadBody(reader, typeTag);
      if body.None? {
        return None;
      }
      return Some(Shape(shapeLength, typeTag, nameIndex, Truncated(typeFlag), typeSpecialFlag, body.value));
    }

    // One entry, added to the pool; false for an abort.
    method ReadEntry(reader: BirFileReader) returns (ok: bool)
      modifies reader, this
      ensures match ParseEntry(reader.bytes, old(reader.pos))
        case Got(e, next) =>
          ok && reader.pos == next
          && poolEntries == if e.Some? then old(poolEntries) + [e.value] else old(poolEntries)
        case Aborts => !ok
    {
      var tag := reader.ReadU1();
      if tag == TAG_PACKAGE {
        var org := reader.ReadS4be();
        var name := reader.ReadS4be();
        var version := reader.ReadS4be();
        poolEntries := poolEntries + [PackageEntry(org, name, version)];
      } else if tag == TAG_SHAPE {
        var shape := ReadShape(reader);
        if shape.None? {
          return false;
        }
        poolEntries := poolEntries + [ShapeEntry(shape.value)];
      } else if tag == TAG_STRING {
        var length := reader.ReadS4be();
        if length < 0 {
          return false;
        }
        var text := reader.ReadChars(length);
        poolEntries := poolEntries + [StringEntry(text)];
      } else if tag == TAG_INTEGER {
        var value := reader.ReadS8be();
        poolEntries := poolEntries + [IntEntry(value)];
      } else if tag == TAG_FLOAT {
        var value := reader.ReadS8bef();
        poolEntries := poolEntries + [FloatEntry(value)];
      } else if tag == TAG_BOOLEAN {
        var value := reader.ReadU1();
        poolEntries := poolEntries + [BooleanEntry(value)];
      } else if tag == TAG_BYTE {
        var value := reader.ReadS4be();
        poolEntries := poolEntries + [ByteEntry(value)];
      }
      return true;
    }

    method Read(reader: BirFileReader) returns (ok: bool)
      modifies reader, this
      ensures match ParsePool(reader.bytes, old(reader.pos))
        case Got(entries, next) => ok && poolEntries == entries && reader.pos == next
        case Aborts => !ok
    {
      hide ParseEntry;
      ghost var start := reader.pos + 4;
      var constantPoolEntries := reader.ReadS4be();
      poolEntries := [];
      if constantPoolEntries < 0 {
        return false;
      }
      var i := 0;
      while i < constantPoolEntries
        invariant 0 <= i <= constantPoolEntries
        invariant ParseEntries(reader.bytes, start, i) == Got(poolEntries, reader.pos)
      {
        var more := ReadEntry(reader);
        if !more {
          assert ParseEntries(reader.bytes, start, i + 1).Aborts?;
          AbortsForGood(reader.bytes, start, i + 1, constantPoolEntries);
          return false;
        }
        i := i + 1;
      }
      return true;
    }
  }
}

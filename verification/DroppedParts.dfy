// The parts of a file that are read and dropped, byte for byte: shapes of unions,
// records, objects and other types, the tables of a function, and the constants and
// type definitions of a module. Reading stops right after each.
module DroppedParts {
  import opened Options
  import opened Words
  import opened Streams
  import opened ConstantPools
  import opened FunctionReader
  import opened PackageReader

  // ----- Lists -----

  function Counted(k: nat): (r: seq<Byte>)
    ensures |r| == 4
  {
    S4Bytes(if k < TWO_31 then k else 0)
  }

  function Int32List(ns: seq<Int32>): seq<Byte> {
    Counted(|ns|) + Int32sBytes(ns)
  }

  function Each<T>(f: T -> seq<Byte>, xs: seq<T>): seq<Byte> {
    if xs == [] then [] else f(xs[0]) + Each(f, xs[1..])
  }

  function Listed<T>(f: T -> seq<Byte>, xs: seq<T>): seq<Byte> {
    Counted(|xs|) + Each(f, xs)
  }

  // ----- Steps over a layout -----

  lemma PastNum(l: Layout, s: seq<Byte>, p: nat)
    requires l.Num?
    ensures Skip(l, s, p) == Skip(l.next, s, p + l.width)
  {
  }

  lemma PastEnd(s: seq<Byte>, p: nat)
    ensures Skip(End, s, p) == Some(p)
  {
  }

  // A number, and nothing else.
  lemma PastLast(s: seq<Byte>, p: nat)
    ensures Skip(ONE_S4, s, p) == Some(p + 4)
  {
    PastNum(ONE_S4, s, p);
  }

  lemma PastChoice(l: Layout, s: seq<Byte>, p: nat, flag: Byte, k: nat)
    requires l.When? && At(s, p, [flag])
    requires l.zero == (flag == 0) ==> Skip(l.more, s, p + 1) == Some(p + 1 + k)
    ensures Skip(l, s, p) == Skip(l.next, s, p + 1 + if l.zero == (flag == 0) then k else 0)
  {
    ReadsU1(s, p, flag);
  }

  lemma {:induction false} IntsSkipped(s: seq<Byte>, p: nat, k: nat)
    ensures SkipMany(ONE_S4, s, p, k) == Some(p + 4 * k)
    decreases k
  {
    if k > 0 {
      assert Skip(ONE_S4, s, p) == Some(p + 4);
      IntsSkipped(s, p + 4, k - 1);
    }
  }

  lemma PastMany(l: Layout, s: seq<Byte>, p: nat, k: nat, size: nat)
    requires l.Many? && k < TWO_31 && At(s, p, Counted(k)) && SkipMany(l.item, s, p + 4, k) == Some(p + 4 + size)
    ensures Skip(l, s, p) == Skip(l.next, s, p + 4 + size)
  {
    ReadsS4(s, p, k);
  }

  lemma PastInts(l: Layout, s: seq<Byte>, p: nat, ns: seq<Int32>)
    requires l.Many? && l.item == ONE_S4 && |ns| < TWO_31 && At(s, p, Int32List(ns))
    ensures Skip(l, s, p) == Skip(l.next, s, p + |Int32List(ns)|)
  {
    hide At;
    Parts2(s, p, Counted(|ns|), Int32sBytes(ns));
    IntsSkipped(s, p + 4, |ns|);
    PastMany(l, s, p, |ns|, 4 * |ns|);
  }

  lemma {:induction false} EachSkipped<T(!new)>(item: Layout, f: T -> seq<Byte>, xs: seq<T>, s: seq<Byte>, p: nat)
    requires At(s, p, Each(f, xs))
    requires forall x: T, q: nat :: x in xs && At(s, q, f(x)) ==> Skip(item, s, q) == Some(q + |f(x)|)
    ensures SkipMany(item, s, p, |xs|) == Some(p + |Each(f, xs)|)
    decreases |xs|
  {
    hide At, Skip;
    if xs != [] {
      Parts2(s, p, f(xs[0]), Each(f, xs[1..]));
      EachSkipped(item, f, xs[1..], s, p + |f(xs[0])|);
    }
  }

  lemma PastList<T(!new)>(l: Layout, f: T -> seq<Byte>, xs: seq<T>, s: seq<Byte>, p: nat)
    requires l.Many? && |xs| < TWO_31 && At(s, p, Listed(f, xs))
    requires forall x: T, q: nat :: x in xs && At(s, q, f(x)) ==> Skip(l.item, s, q) == Some(q + |f(x)|)
    ensures Skip(l, s, p) == Skip(l.next, s, p + |Listed(f, xs)|)
  {
    hide At, Skip;
    Parts2(s, p, Counted(|xs|), Each(f, xs));
    EachSkipped(l.item, f, xs, s, p + 4);
    PastMany(l, s, p, |xs|, |Each(f, xs)|);
  }

  function Blob4(content: seq<Byte>): seq<Byte> {
    Counted(|content|) + content
  }

  function Blob8(content: seq<Byte>): seq<Byte> {
    S8Bytes(if |content| < TWO_31 then |content| else 0) + content
  }

  lemma PastBlob(l: Layout, s: seq<Byte>, p: nat, content: seq<Byte>)
    requires l.Blob? && |content| < TWO_31
    requires At(s, p, if l.wide then Blob8(content) else Blob4(content))
    ensures Skip(l, s, p) == Skip(l.next, s, p + |content| + if l.wide then 8 else 4)
  {
    if l.wide {
      Parts2(s, p, S8Bytes(|content|), content);
      ReadsS8(s, p, |content|);
    } else {
      Parts2(s, p, Counted(|content|), content);
      ReadsS4(s, p, |content|);
    }
  }

  // ----- Parts of shapes -----

  datatype Attached = Attached(name: Int32, flags: Int64, typ: Int32)

  function AttachedBytes(a: Attached): seq<Byte> {
    S4Bytes(a.name) + S8Bytes(a.flags) + S4Bytes(a.typ)
  }

  lemma AttachedIsSkipped(s: seq<Byte>, q: nat, a: Attached)
    ensures Skip(ATTACHED_FUNCTION, s, q) == Some(q + |AttachedBytes(a)|)
  {
    var l := ATTACHED_FUNCTION;
    PastNum(l, s, q);
    PastNum(l.next, s, q + 4);
    PastNum(l.next.next, s, q + 12);
  }

  // Documentation is a list of numbers here.
  datatype Field = Field(name: Int32, flags: Int64, doc: seq<Int32>, typ: Int32)

  function DocumentedBytes(f: Field): seq<Byte> {
    S4Bytes(f.name) + S8Bytes(f.flags) + Int32List(f.doc) + S4Bytes(f.typ)
  }

  lemma FieldIsSkipped(s: seq<Byte>, q: nat, f: Field)
    requires |f.doc| < TWO_31 && At(s, q, DocumentedBytes(f))
    ensures Skip(DOCUMENTED_FIELD, s, q) == Some(q + |DocumentedBytes(f)|)
  {
    hide At;
    Parts4(s, q, S4Bytes(f.name), S8Bytes(f.flags), Int32List(f.doc), S4Bytes(f.typ));
    var l := DOCUMENTED_FIELD;
    PastNum(l, s, q);
    PastNum(l.next, s, q + 4);
    PastInts(l.next.next, s, q + 12, f.doc);
  }

  datatype TypeId = TypeId(package: Int32, name: Int32, isPublic: Byte)

  function IdBytes(i: TypeId): seq<Byte> {
    S4Bytes(i.package) + S4Bytes(i.name) + [i.isPublic]
  }

  function IdsBytes(primary: seq<TypeId>, secondary: seq<TypeId>): seq<Byte> {
    Listed(IdBytes, primary) + Listed(IdBytes, secondary)
  }

  lemma IdIsSkipped(s: seq<Byte>, q: nat, i: TypeId)
    ensures Skip(TYPE_ID_SET, s, q) == Some(q + |IdBytes(i)|)
  {
    var l := TYPE_ID_SET;
    PastNum(l, s, q);
    PastNum(l.next, s, q + 4);
    PastNum(l.next.next, s, q + 8);
  }

  lemma IdsAreSkipped(s: seq<Byte>, p: nat, primary: seq<TypeId>, secondary: seq<TypeId>)
    requires |primary| < TWO_31 && |secondary| < TWO_31 && At(s, p, IdsBytes(primary, secondary))
    ensures Skip(TypeIds(), s, p) == Some(p + |IdsBytes(primary, secondary)|)
  {
    hide At, IdBytes;
    Parts2(s, p, Listed(IdBytes, primary), Listed(IdBytes, secondary));
    forall i: TypeId, q: nat | At(s, q, IdBytes(i))
      ensures Skip(TYPE_ID_SET, s, q) == Some(q + |IdBytes(i)|)
    {
      IdIsSkipped(s, q, i);
    }
    var l := TypeIds();
    PastList(l, IdBytes, primary, s, p);
    PastList(l.next, IdBytes, secondary, s, p + |Listed(IdBytes, primary)|);
  }

  // ----- Shapes -----

  datatype Union = Union(
    isCyclic: Byte, hasName: Byte, package: Int32, name: Int32, members: seq<Int32>, originals: seq<Int32>,
    isEnum: Byte, enumPackage: Int32, enumName: Int32, enumMembers: seq<Int32>)

  function UnionBytes(u: Union): seq<Byte> {
    [u.isCyclic] + ([u.hasName] + if u.hasName != 0 then S4Bytes(u.package) + S4Bytes(u.name) else [])
    + Int32List(u.members) + Int32List(u.originals) + EnumBytes(u)
  }

  // Two numbers behind a flag.
  lemma PastNamed(l: Layout, s: seq<Byte>, p: nat, has: Byte, a: Int32, b: Int32)
    requires l.When? && !l.zero && l.more == Num(4, ONE_S4)
    requires At(s, p, [has] + if has != 0 then S4Bytes(a) + S4Bytes(b) else [])
    ensures Skip(l, s, p) == Skip(l.next, s, p + 1 + if has != 0 then 8 else 0)
  {
    hide At, Skip;
    Parts2(s, p, [has], if has != 0 then S4Bytes(a) + S4Bytes(b) else []);
    PastNum(l.more, s, p + 1);
    PastLast(s, p + 5);
    PastChoice(l, s, p, has, 8);
  }

  const ENUM: Layout := Num(4, Num(4, Many(true, ONE_S4, End)))

  function EnumBytes(u: Union): seq<Byte> {
    [u.isEnum] + if u.isEnum != 0 then S4Bytes(u.enumPackage) + S4Bytes(u.enumName) + Int32List(u.enumMembers) else []
  }

  lemma EnumIsSkipped(l: Layout, u: Union, s: seq<Byte>, p: nat)
    requires l == When(false, ENUM, End) && |u.enumMembers| < TWO_31 && At(s, p, EnumBytes(u))
    ensures Skip(l, s, p) == Some(p + |EnumBytes(u)|)
  {
    hide At, Skip, Int32List;
    var members := Int32List(u.enumMembers);
    var enum := if u.isEnum != 0 then S4Bytes(u.enumPackage) + S4Bytes(u.enumName) + members else [];
    Parts2(s, p, [u.isEnum], enum);
    if u.isEnum != 0 {
      Parts3(s, p + 1, S4Bytes(u.enumPackage), S4Bytes(u.enumName), members);
      PastNum(ENUM, s, p + 1);
      PastNum(ENUM.next, s, p + 5);
      PastInts(ENUM.next.next, s, p + 9, u.enumMembers);
      PastEnd(s, p + 9 + |members|);
    }
    PastChoice(l, s, p, u.isEnum, |enum|);
    PastEnd(s, p + 1 + |enum|);
  }

  lemma UnionLayout()
    ensures KindOf(20) == DroppedKind(
      Num(1, When(false, Num(4, ONE_S4), Many(true, ONE_S4, Many(true, ONE_S4, When(false, ENUM, End))))))
  {
  }

  lemma UnionIsSkipped(u: Union, s: seq<Byte>, p: nat)
    requires |u.members| < TWO_31 && |u.originals| < TWO_31 && |u.enumMembers| < TWO_31 && At(s, p, UnionBytes(u))
    ensures ParseBody(20, s, p) == Got(NoBody, p + |UnionBytes(u)|)
  {
    hide At, Skip, KindOf, Int32List, EnumBytes;
    var name := [u.hasName] + if u.hasName != 0 then S4Bytes(u.package) + S4Bytes(u.name) else [];
    var a, b := Int32List(u.members), Int32List(u.originals);
    Parts5(s, p, [u.isCyclic], name, a, b, EnumBytes(u));
    UnionLayout();
    var l := KindOf(20).dropped;
    PastNum(l, s, p);
    PastNamed(l.next, s, p + 1, u.hasName, u.package, u.name);
    var q := p + 1 + |name|;
    PastInts(l.next.next, s, q, u.members);
    PastInts(l.next.next.next, s, q + |a|, u.originals);
    EnumIsSkipped(l.next.next.next.next, u, s, q + |a| + |b|);
  }

  datatype Record = Record(
    package: Int32, name: Int32, isSealed: Byte, rest: Int32, fields: seq<Field>,
    hasInit: Byte, init: Attached, inclusions: seq<Int32>)

  predicate OkFields(fs: seq<Field>) {
    |fs| < TWO_31 && forall f :: f in fs ==> |f.doc| < TWO_31
  }

  function RecordBytes(r: Record): seq<Byte> {
    (S4Bytes(r.package) + S4Bytes(r.name) + [r.isSealed] + S4Bytes(r.rest))
    + Listed(DocumentedBytes, r.fields) + Optional(r.hasInit, r.init) + Int32List(r.inclusions)
  }

  function Optional(has: Byte, a: Attached): seq<Byte> {
    [has] + if has != 0 then AttachedBytes(a) else []
  }

  lemma PastOptional(l: Layout, s: seq<Byte>, p: nat, has: Byte, a: Attached)
    requires l.When? && !l.zero && l.more == ATTACHED_FUNCTION && At(s, p, Optional(has, a))
    ensures Skip(l, s, p) == Skip(l.next, s, p + |Optional(has, a)|)
  {
    hide At;
    Parts2(s, p, [has], if has != 0 then AttachedBytes(a) else []);
    AttachedIsSkipped(s, p + 1, a);
    PastChoice(l, s, p, has, 16);
  }

  lemma PastFields(l: Layout, s: seq<Byte>, p: nat, fs: seq<Field>)
    requires l.Many? && l.item == DOCUMENTED_FIELD && OkFields(fs) && At(s, p, Listed(DocumentedBytes, fs))
    ensures Skip(l, s, p) == Skip(l.next, s, p + |Listed(DocumentedBytes, fs)|)
  {
    hide At, DocumentedBytes, Skip;
    forall f: Field, q: nat | f in fs && At(s, q, DocumentedBytes(f))
      ensures Skip(l.item, s, q) == Some(q + |DocumentedBytes(f)|)
    {
      FieldIsSkipped(s, q, f);
    }
    PastList(l, DocumentedBytes, fs, s, p);
  }

  lemma RecordLayout()
    ensures KindOf(12) == DroppedKind(Num(4, Num(4, Num(1, Num(4,
      Many(true, DOCUMENTED_FIELD, When(false, ATTACHED_FUNCTION, Many(true, ONE_S4, End))))))))
  {
  }

  lemma RecordIsSkipped(r: Record, s: seq<Byte>, p: nat)
    requires OkFields(r.fields) && |r.inclusions| < TWO_31 && At(s, p, RecordBytes(r))
    ensures ParseBody(12, s, p) == Got(NoBody, p + |RecordBytes(r)|)
  {
    hide At, Skip, KindOf, DocumentedBytes, Listed, Optional, Int32List, OkFields;
    var head := S4Bytes(r.package) + S4Bytes(r.name) + [r.isSealed] + S4Bytes(r.rest);
    var fields, init := Listed(DocumentedBytes, r.fields), Optional(r.hasInit, r.init);
    Parts4(s, p, head, fields, init, Int32List(r.inclusions));
    RecordLayout();
    var l := KindOf(12).dropped;
    PastNum(l, s, p);
    PastNum(l.next, s, p + 4);
    PastNum(l.next.next, s, p + 8);
    PastNum(l.next.next.next, s, p + 9);
    var l1, q := l.next.next.next.next, p + 13;
    PastFields(l1, s, q, r.fields);
    PastOptional(l1.next, s, q + |fields|, r.hasInit, r.init);
    PastInts(l1.next.next, s, q + |fields| + |init|, r.inclusions);
    PastEnd(s, p + |RecordBytes(r)|);
  }

  datatype Object = Object(
    isObject: Byte, package: Int32, name: Int32, isAbstract: Byte, isClient: Byte, fields: seq<Field>,
    hasGenerated: Byte, generated: Attached, hasInit: Byte, init: Attached, functions: seq<Attached>,
    inclusions: seq<Int32>, primary: seq<TypeId>, secondary: seq<TypeId>)

  function ObjectHead(o: Object): (r: seq<Byte>)
    ensures |r| == 11
  {
    [o.isObject] + S4Bytes(o.package) + S4Bytes(o.name) + [o.isAbstract] + [o.isClient]
  }

  function ObjectBytes(o: Object): seq<Byte> {
    (ObjectHead(o) + Listed(DocumentedBytes, o.fields))
    + Optional(o.hasGenerated, o.generated) + Optional(o.hasInit, o.init)
    + Listed(AttachedBytes, o.functions) + Int32List(o.inclusions) + IdsBytes(o.primary, o.secondary)
  }

  lemma PastAttached(l: Layout, s: seq<Byte>, p: nat, fs: seq<Attached>)
    requires l.Many? && l.item == ATTACHED_FUNCTION && |fs| < TWO_31 && At(s, p, Listed(AttachedBytes, fs))
    ensures Skip(l, s, p) == Skip(l.next, s, p + |Listed(AttachedBytes, fs)|)
  {
    hide At, AttachedBytes, Skip;
    forall f: Attached, q: nat | f in fs && At(s, q, AttachedBytes(f))
      ensures Skip(l.item, s, q) == Some(q + |AttachedBytes(f)|)
    {
      AttachedIsSkipped(s, q, f);
    }
    PastList(l, AttachedBytes, fs, s, p);
  }

  lemma ObjectLayout()
    ensures KindOf(33) == DroppedKind(Num(1, Num(4, Num(4, Num(1, Num(1,
      Many(true, DOCUMENTED_FIELD,
      When(false, ATTACHED_FUNCTION, When(false, ATTACHED_FUNCTION,
      Many(true, ATTACHED_FUNCTION, Many(true, ONE_S4, TypeIds())))))))))))
  {
  }

  lemma ObjectIsSkipped(o: Object, s: seq<Byte>, p: nat)
    requires OkFields(o.fields) && |o.functions| < TWO_31 && |o.inclusions| < TWO_31
    requires |o.primary| < TWO_31 && |o.secondary| < TWO_31 && At(s, p, ObjectBytes(o))
    ensures ParseBody(33, s, p) == Got(NoBody, p + |ObjectBytes(o)|)
  {
    hide At, Skip, KindOf, DocumentedBytes, AttachedBytes, Listed, Optional, Int32List, OkFields, IdsBytes, TypeIds,
      ObjectHead;
    var fields, functions := Listed(DocumentedBytes, o.fields), Listed(AttachedBytes, o.functions);
    var a, b := Optional(o.hasGenerated, o.generated), Optional(o.hasInit, o.init);
    var inclusions := Int32List(o.inclusions);
    Parts6(s, p, ObjectHead(o) + fields, a, b, functions, inclusions, IdsBytes(o.primary, o.secondary));
    Parts2(s, p, ObjectHead(o), fields);
    ObjectLayout();
    var l := KindOf(33).dropped;
    PastNum(l, s, p);
    PastNum(l.next, s, p + 1);
    PastNum(l.next.next, s, p + 5);
    PastNum(l.next.next.next, s, p + 9);
    PastNum(l.next.next.next.next, s, p + 10);
    var l1, q := l.next.next.next.next.next, p + 11;
    PastFields(l1, s, q, o.fields);
    var q1 := q + |fields|;
    PastOptional(l1.next, s, q1, o.hasGenerated, o.generated);
    PastOptional(l1.next.next, s, q1 + |a|, o.hasInit, o.init);
    var l2, q2 := l1.next.next.next, q1 + |a| + |b|;
    PastAttached(l2, s, q2, o.functions);
    PastInts(l2.next, s, q2 + |functions|, o.inclusions);
    IdsAreSkipped(s, q2 + |functions| + |inclusions|, o.primary, o.secondary);
  }

  // ----- Smaller shapes -----

  lemma ErrorIsSkipped(package: Int32, name: Int32, detail: Int32, primary: seq<TypeId>, secondary: seq<TypeId>,
                       s: seq<Byte>, p: nat)
    requires |primary| < TWO_31 && |secondary| < TWO_31
    requires At(s, p, S4Bytes(package) + S4Bytes(name) + S4Bytes(detail) + IdsBytes(primary, secondary))
    ensures ParseBody(28, s, p) == Got(NoBody, p + 12 + |IdsBytes(primary, secondary)|)
  {
    hide At, Skip, IdsBytes, TypeIds;
    Parts4(s, p, S4Bytes(package), S4Bytes(name), S4Bytes(detail), IdsBytes(primary, secondary));
    var l := KindOf(28).dropped;
    PastNum(l, s, p);
    PastNum(l.next, s, p + 4);
    PastNum(l.next.next, s, p + 8);
    IdsAreSkipped(s, p + 12, primary, secondary);
  }

  lemma TupleIsSkipped(members: seq<Int32>, hasRest: Byte, rest: Int32, s: seq<Byte>, p: nat)
    requires |members| < TWO_31
    requires At(s, p, Int32List(members) + [hasRest] + if hasRest != 0 then S4Bytes(rest) else [])
    ensures ParseBody(30, s, p) == Got(NoBody, p + |Int32List(members)| + 1 + if hasRest != 0 then 4 else 0)
  {
    hide At, Skip, Int32List;
    var q := p + |Int32List(members)|;
    Parts3(s, p, Int32List(members), [hasRest], if hasRest != 0 then S4Bytes(rest) else []);
    var l := KindOf(30).dropped;
    PastInts(l, s, p, members);
    PastLast(s, q + 1);
    PastChoice(l.next, s, q, hasRest, 4);
    PastEnd(s, q + 1 + if hasRest != 0 then 4 else 0);
  }

  lemma IntersectionIsSkipped(members: seq<Int32>, effective: Int32, s: seq<Byte>, p: nat)
    requires |members| < TWO_31 && At(s, p, Int32List(members) + S4Bytes(effective))
    ensures ParseBody(21, s, p) == Got(NoBody, p + |Int32List(members)| + 4)
  {
    hide At, Skip, Int32List;
    Parts2(s, p, Int32List(members), S4Bytes(effective));
    PastInts(KindOf(21).dropped, s, p, members);
    PastLast(s, p + |Int32List(members)|);
  }

  lemma ParameterIsSkipped(s: seq<Byte>, p: nat)
    ensures ParseBody(52, s, p) == Got(NoBody, p + 8)
  {
    hide Skip;
    PastNum(KindOf(52).dropped, s, p);
    PastLast(s, p + 4);
  }

  // A table keeps its constraint; the names of its key and a constraint on it are dropped.
  lemma TableIsSkipped(constraint: Int32, hasNames: Byte, names: seq<Int32>, hasKey: Byte, key: Int32,
                       s: seq<Byte>, p: nat)
    requires |names| < TWO_31
    requires At(s, p, S4Bytes(constraint) + [hasNames] + (if hasNames != 0 then Int32List(names) else []) + [hasKey]
                      + if hasKey != 0 then S4Bytes(key) else [])
    ensures ParseBody(9, s, p) == Got(Constrained(constraint),
      p + 6 + (if hasNames != 0 then |Int32List(names)| else 0) + if hasKey != 0 then 4 else 0)
  {
    hide At, Skip, Int32List, S4;
    var list := if hasNames != 0 then Int32List(names) else [];
    Parts5(s, p, S4Bytes(constraint), [hasNames], list, [hasKey], if hasKey != 0 then S4Bytes(key) else []);
    ReadsS4(s, p, constraint);
    var l := KindOf(9).dropped;
    var q := p + 5 + |list|;
    if hasNames != 0 {
      PastInts(l.more, s, p + 5, names);
      PastEnd(s, p + 5 + |Int32List(names)|);
    }
    PastChoice(l, s, p + 4, hasNames, |list|);
    PastLast(s, q + 1);
    PastChoice(l.next, s, q, hasKey, 4);
    PastEnd(s, q + 1 + if hasKey != 0 then 4 else 0);
  }

  // A stream keeps its constraint; the type of its error is dropped.
  lemma StreamIsSkipped(constraint: Int32, hasError: Byte, error: Int32, s: seq<Byte>, p: nat)
    requires At(s, p, S4Bytes(constraint) + [hasError] + if hasError != 0 then S4Bytes(error) else [])
    ensures ParseBody(14, s, p) == Got(Constrained(constraint), p + 5 + if hasError != 0 then 4 else 0)
  {
    hide At, Skip, S4;
    Parts3(s, p, S4Bytes(constraint), [hasError], if hasError != 0 then S4Bytes(error) else []);
    ReadsS4(s, p, constraint);
    PastLast(s, p + 5);
    PastChoice(KindOf(14).dropped, s, p + 4, hasError, 4);
    PastEnd(s, p + 5 + if hasError != 0 then 4 else 0);
  }

  // These four keep their constraint and nothing else follows.
  lemma ConstraintIsRead(tag: Byte, constraint: Int32, s: seq<Byte>, p: nat)
    requires (tag == 8 || tag == 13 || tag == 15 || tag == 31) && At(s, p, S4Bytes(constraint))
    ensures ParseBody(tag, s, p) == Got(Constrained(constraint), p + 4)
  {
    hide At, Skip, S4;
    ReadsS4(s, p, constraint);
    PastEnd(s, p + 4);
  }

  datatype Singleton = Singleton(typ: Int32, content: seq<Byte>)

  function SingletonBytes(v: Singleton): seq<Byte> {
    S4Bytes(v.typ) + Blob4(v.content)
  }

  lemma {:induction false} BytesSkipped(s: seq<Byte>, p: nat, k: nat)
    ensures SkipMany(Num(1, End), s, p, k) == Some(p + k)
    decreases k
  {
    if k > 0 {
      assert Skip(Num(1, End), s, p) == Some(p + 1);
      BytesSkipped(s, p + 1, k - 1);
    }
  }

  lemma SingletonIsSkipped(s: seq<Byte>, q: nat, v: Singleton)
    requires |v.content| < TWO_31 && At(s, q, SingletonBytes(v))
    ensures Skip(Num(4, Many(false, Num(1, End), End)), s, q) == Some(q + |SingletonBytes(v)|)
  {
    hide At, Skip;
    Parts2(s, q, S4Bytes(v.typ), Blob4(v.content));
    Parts2(s, q + 4, Counted(|v.content|), v.content);
    var l := Num(4, Many(false, Num(1, End), End));
    PastNum(l, s, q);
    BytesSkipped(s, q + 8, |v.content|);
    PastMany(l.next, s, q + 4, |v.content|, |v.content|);
    PastEnd(s, q + |SingletonBytes(v)|);
  }

  lemma FiniteIsSkipped(name: Int32, flags: Int64, values: seq<Singleton>, s: seq<Byte>, p: nat)
    requires |values| < TWO_31 && forall v :: v in values ==> |v.content| < TWO_31
    requires At(s, p, S4Bytes(name) + S8Bytes(flags) + Listed(SingletonBytes, values))
    ensures ParseBody(32, s, p) == Got(NoBody, p + 12 + |Listed(SingletonBytes, values)|)
  {
    hide At, Skip, SingletonBytes, Listed;
    Parts3(s, p, S4Bytes(name), S8Bytes(flags), Listed(SingletonBytes, values));
    var l := KindOf(32).dropped;
    PastNum(l, s, p);
    PastNum(l.next, s, p + 4);
    forall v: Singleton, q: nat | v in values && At(s, q, SingletonBytes(v))
      ensures Skip(l.next.next.item, s, q) == Some(q + |SingletonBytes(v)|)
    {
      SingletonIsSkipped(s, q, v);
    }
    PastList(l.next.next, SingletonBytes, values, s, p + 12);
    PastEnd(s, p + 12 + |Listed(SingletonBytes, values)|);
  }

  // Nothing follows the header of any other type, from int to never.
  lemma OthersAreEmpty(tag: Byte, s: seq<Byte>, p: nat)
    requires 1 <= tag <= 51 && tag !in {8, 9, 12, 13, 14, 15, 16, 19, 20, 21, 28, 30, 31, 32, 33}
    ensures ParseBody(tag, s, p) == Got(NoBody, p)
  {
    PastEnd(s, p);
  }

  // The two kinds that drop nothing, and the tags that no type has.
  lemma OtherKinds(tag: Byte, state: Byte, size: Int32, element: Int32, s: seq<Byte>, p: nat)
    ensures At(s, p, [state] + S4Bytes(size) + S4Bytes(element)) ==>
      ParseBody(19, s, p) == Got(ArrayBody(state, size, element), p + 9)
    ensures ParseBody(16, s, p) == ParseInvokable(s, p)
    ensures ParseBody(tag, s, p).Aborts? && tag !in {9, 12, 14, 20, 21, 28, 30, 32, 33} <==> tag == 0 || tag > 52
  {
    hide At, S4, U1, Skip;
    if At(s, p, [state] + S4Bytes(size) + S4Bytes(element)) {
      Parts3(s, p, [state], S4Bytes(size), S4Bytes(element));
      Reads(s);
    }
    if 1 <= tag <= 52 && tag !in {8, 9, 12, 13, 14, 15, 16, 19, 20, 21, 28, 30, 31, 32, 33, 52} {
      OthersAreEmpty(tag, s, p);
    }
    PastEnd(s, p + 4);
    ParameterIsSkipped(s, p);
  }

  // ----- The tables of a function -----

  datatype Scope = Scope(index: Int32, offset: Int32, hasParent: Byte, parent: Int32)

  function ScopeBytes(c: Scope): seq<Byte> {
    S4Bytes(c.index) + S4Bytes(c.offset) + [c.hasParent] + if c.hasParent != 0 then S4Bytes(c.parent) else []
  }

  const SCOPE: Layout := Num(4, Num(4, When(false, ONE_S4, End)))

  lemma ScopeIsSkipped(s: seq<Byte>, q: nat, c: Scope)
    requires At(s, q, ScopeBytes(c))
    ensures Skip(SCOPE, s, q) == Some(q + |ScopeBytes(c)|)
  {
    hide At, Skip;
    Parts4(s, q, S4Bytes(c.index), S4Bytes(c.offset), [c.hasParent], if c.hasParent != 0 then S4Bytes(c.parent)
           else []);
    PastNum(SCOPE, s, q);
    PastNum(SCOPE.next, s, q + 4);
    PastLast(s, q + 9);
    PastChoice(SCOPE.next.next, s, q + 8, c.hasParent, 4);
    PastEnd(s, q + |ScopeBytes(c)|);
  }

  datatype Tables = Tables(
    hasRest: Byte, rest: Int32, hasReceiver: Byte, receiverKind: Byte, receiverType: Int32, receiverName: Int32,
    taint: seq<Byte>, doc: seq<Byte>, globals: seq<Int32>, scopeLength: Int64, scopes: seq<Scope>,
    bodyLength: Int64, arguments: Int32)

  function RestBytes(t: Tables): seq<Byte> {
    [t.hasRest] + if t.hasRest != 0 then S4Bytes(t.rest) else []
  }

  function ReceiverBytes(t: Tables): seq<Byte> {
    [t.hasReceiver]
    + if t.hasReceiver != 0 then [t.receiverKind] + S4Bytes(t.receiverType) + S4Bytes(t.receiverName) else []
  }

  function ScopesBytes(t: Tables): seq<Byte> {
    S8Bytes(t.scopeLength) + Listed(ScopeBytes, t.scopes) + S8Bytes(t.bodyLength) + S4Bytes(t.arguments)
  }

  function TablesBytes(t: Tables): seq<Byte> {
    RestBytes(t) + ReceiverBytes(t) + Blob8(t.taint) + Blob4(t.doc) + Int32List(t.globals) + ScopesBytes(t)
  }

  lemma RestIsSkipped(l: Layout, t: Tables, s: seq<Byte>, p: nat)
    requires l.When? && !l.zero && l.more == ONE_S4 && At(s, p, RestBytes(t))
    ensures Skip(l, s, p) == Skip(l.next, s, p + |RestBytes(t)|)
  {
    hide At, Skip;
    Parts2(s, p, [t.hasRest], if t.hasRest != 0 then S4Bytes(t.rest) else []);
    PastLast(s, p + 1);
    PastChoice(l, s, p, t.hasRest, 4);
  }

  lemma ReceiverIsSkipped(l: Layout, t: Tables, s: seq<Byte>, p: nat)
    requires l.When? && !l.zero && l.more == Num(1, Num(4, ONE_S4)) && At(s, p, ReceiverBytes(t))
    ensures Skip(l, s, p) == Skip(l.next, s, p + |ReceiverBytes(t)|)
  {
    hide At, Skip;
    Parts2(s, p, [t.hasReceiver],
           if t.hasReceiver != 0 then [t.receiverKind] + S4Bytes(t.receiverType) + S4Bytes(t.receiverName) else []);
    PastNum(l.more, s, p + 1);
    PastNum(l.more.next, s, p + 2);
    PastLast(s, p + 6);
    PastChoice(l, s, p, t.hasReceiver, 9);
  }

  lemma ScopesAreSkipped(l: Layout, t: Tables, s: seq<Byte>, p: nat)
    requires l == Num(8, Many(false, SCOPE, Num(8, ONE_S4))) && |t.scopes| < TWO_31 && At(s, p, ScopesBytes(t))
    ensures Skip(l, s, p) == Some(p + |ScopesBytes(t)|)
  {
    hide At, Skip, ScopeBytes, Listed;
    Parts4(s, p, S8Bytes(t.scopeLength), Listed(ScopeBytes, t.scopes), S8Bytes(t.bodyLength), S4Bytes(t.arguments));
    PastNum(l, s, p);
    forall c: Scope, q: nat | c in t.scopes && At(s, q, ScopeBytes(c))
      ensures Skip(SCOPE, s, q) == Some(q + |ScopeBytes(c)|)
    {
      ScopeIsSkipped(s, q, c);
    }
    PastList(l.next, ScopeBytes, t.scopes, s, p + 8);
    var q := p + 8 + |Listed(ScopeBytes, t.scopes)|;
    PastNum(l.next.next, s, q);
    PastLast(s, q + 8);
  }

  lemma TablesAreSkipped(t: Tables, s: seq<Byte>, p: nat)
    requires |t.taint| < TWO_31 && |t.doc| < TWO_31 && |t.globals| < TWO_31 && |t.scopes| < TWO_31
    requires At(s, p, TablesBytes(t))
    ensures Skip(TABLES, s, p) == Some(p + |TablesBytes(t)|)
  {
    hide At, Skip, RestBytes, ReceiverBytes, ScopesBytes, Int32List, S8Bytes, Counted;
    var a, b := RestBytes(t), ReceiverBytes(t);
    Parts6(s, p, a, b, Blob8(t.taint), Blob4(t.doc), Int32List(t.globals), ScopesBytes(t));
    var l, q := TABLES, p + |a| + |b|;
    RestIsSkipped(l, t, s, p);
    ReceiverIsSkipped(l.next, t, s, p + |a|);
    PastBlob(l.next.next, s, q, t.taint);
    var q1 := q + |Blob8(t.taint)|;
    PastBlob(l.next.next.next, s, q1, t.doc);
    var q2 := q1 + |Blob4(t.doc)|;
    PastInts(l.next.next.next.next, s, q2, t.globals);
    ScopesAreSkipped(l.next.next.next.next.next, t, s, q2 + |Int32List(t.globals)|);
  }

  // ----- The constants and type definitions of a module -----

  datatype Place = Place(file: Int32, sLine: Int32, sCol: Int32, eLine: Int32, eCol: Int32)

  function PlaceBytes(p: Place): (r: seq<Byte>)
    ensures |r| == 20
  {
    S4Bytes(p.file) + S4Bytes(p.sLine) + S4Bytes(p.sCol) + S4Bytes(p.eLine) + S4Bytes(p.eCol)
  }

  datatype Const = Const(
    name: Int32, flags: Int64, origin: Byte, place: Place, doc: seq<Byte>, typ: Int32, value: seq<Byte>)

  function ConstBytes(c: Const): seq<Byte> {
    (S4Bytes(c.name) + S8Bytes(c.flags) + [c.origin] + PlaceBytes(c.place))
    + Blob4(c.doc) + S4Bytes(c.typ) + Blob8(c.value)
  }

  lemma ConstIsSkipped(s: seq<Byte>, q: nat, c: Const)
    requires |c.doc| < TWO_31 && |c.value| < TWO_31 && At(s, q, ConstBytes(c))
    ensures Skip(CONSTANT, s, q) == Some(q + |ConstBytes(c)|)
  {
    hide At, Skip, S8Bytes, Counted, PlaceBytes;
    var head := S4Bytes(c.name) + S8Bytes(c.flags) + [c.origin] + PlaceBytes(c.place);
    Parts4(s, q, head, Blob4(c.doc), S4Bytes(c.typ), Blob8(c.value));
    var l := CONSTANT;
    PastNum(l, s, q);
    PastNum(l.next, s, q + 4);
    PastNum(l.next.next, s, q + 12);
    PastNum(l.next.next.next, s, q + 13);
    var l1, r := l.next.next.next.next, q + 33;
    PastBlob(l1, s, r, c.doc);
    var r1 := r + |Blob4(c.doc)|;
    PastNum(l1.next, s, r1);
    PastBlob(l1.next.next, s, r1 + 4, c.value);
    PastEnd(s, q + |ConstBytes(c)|);
  }

  datatype Definition = Definition(
    place: Place, name: Int32, flags: Int64, visibility: Byte, origin: Byte, doc: seq<Byte>,
    annotations: seq<Byte>, typ: Int32)

  function DefinitionBytes(d: Definition): seq<Byte> {
    (PlaceBytes(d.place) + S4Bytes(d.name) + S8Bytes(d.flags) + [d.visibility] + [d.origin])
    + Blob4(d.doc) + Blob8(d.annotations) + S4Bytes(d.typ)
  }

  lemma DefinitionIsSkipped(s: seq<Byte>, q: nat, d: Definition)
    requires |d.doc| < TWO_31 && |d.annotations| < TWO_31 && At(s, q, DefinitionBytes(d))
    ensures Skip(TYPE_DEFINITION, s, q) == Some(q + |DefinitionBytes(d)|)
  {
    hide At, Skip, S8Bytes, Counted, PlaceBytes;
    var head := PlaceBytes(d.place) + S4Bytes(d.name) + S8Bytes(d.flags) + [d.visibility] + [d.origin];
    Parts4(s, q, head, Blob4(d.doc), Blob8(d.annotations), S4Bytes(d.typ));
    var l := TYPE_DEFINITION;
    PastNum(l, s, q);
    PastNum(l.next, s, q + 20);
    PastNum(l.next.next, s, q + 24);
    PastNum(l.next.next.next, s, q + 32);
    PastNum(l.next.next.next.next, s, q + 33);
    var l1, r := l.next.next.next.next.next, q + 34;
    PastBlob(l1, s, r, d.doc);
    var r1 := r + |Blob4(d.doc)|;
    PastBlob(l1.next, s, r1, d.annotations);
    PastLast(s, r1 + |Blob8(d.annotations)|);
  }

  predicate OkConsts(cs: seq<Const>) {
    |cs| < TWO_31 && forall c :: c in cs ==> |c.doc| < TWO_31 && |c.value| < TWO_31
  }

  predicate OkDefinitions(ds: seq<Definition>) {
    |ds| < TWO_31 && forall d :: d in ds ==> |d.doc| < TWO_31 && |d.annotations| < TWO_31
  }

  lemma DefinitionsAreSkipped(cs: seq<Const>, ds: seq<Definition>, s: seq<Byte>, p: nat)
    requires OkConsts(cs) && OkDefinitions(ds)
    requires At(s, p, Listed(ConstBytes, cs) + Listed(DefinitionBytes, ds))
    ensures Skip(DEFINITIONS, s, p) == Some(p + |Listed(ConstBytes, cs)| + |Listed(DefinitionBytes, ds)|)
  {
    hide At, Skip, ConstBytes, DefinitionBytes, Listed;
    var a, b := Listed(ConstBytes, cs), Listed(DefinitionBytes, ds);
    Parts2(s, p, a, b);
    forall c: Const, q: nat | c in cs && At(s, q, ConstBytes(c))
      ensures Skip(CONSTANT, s, q) == Some(q + |ConstBytes(c)|)
    {
      ConstIsSkipped(s, q, c);
    }
    forall d: Definition, q: nat | d in ds && At(s, q, DefinitionBytes(d))
      ensures Skip(TYPE_DEFINITION, s, q) == Some(q + |DefinitionBytes(d)|)
    {
      DefinitionIsSkipped(s, q, d);
    }
    PastList(DEFINITIONS, ConstBytes, cs, s, p);
    PastList(DEFINITIONS.next, DefinitionBytes, ds, s, p + |a|);
    PastEnd(s, p + |a| + |b|);
  }

  // Twelve bytes for each import.
  lemma ImportsAreSkipped(count: Int32, content: seq<Byte>, s: seq<Byte>, p: nat)
    requires 0 <= count && |content| == 12 * count < TWO_31 && At(s, p, S4Bytes(count) + content)
    ensures SkipImports(s, p) == Some(p + 4 + |content|)
  {
    Parts2(s, p, S4Bytes(count), content);
    ReadsS4(s, p, count);
  }
}

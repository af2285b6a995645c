// The representation of `any`, union and anydata values as 64-bit words, as the
// functions int_to_any, any_to_int, bool_to_any and any_to_bool that the code
// generator emits compute it.
module TaggedValues {
  import opened Options
  import opened Words

  // The values such a word can stand for.
  datatype Tagged = TaggedInt(n: Int64) | TaggedBool(b: bool)

  // The int64 cells of the heap, by address. A box is nine bytes at an address
  // divisible by 8; its cell is one byte in.
  type Heap = map<int, Int64>

  const BOX_SIZE: int := 9

  // Whether nine bytes at p are aligned, inside the address space, and disjoint
  // from every box in the heap.
  predicate FreeBox(heap: Heap, p: int) {
    && 0 < p <= TWO_64 - BOX_SIZE && p % 8 == 0
    && forall a :: a in heap ==> p + BOX_SIZE <= a - 1 || a - 1 + BOX_SIZE <= p
  }

  // malloc may return any free aligned address; NoMemory stands for its failure.
  datatype Boxed = Word(w: Word, heap: Heap) | NoMemory

  datatype Unboxed = Int(n: Int64) | Abort | Unmapped

  const MAX_IMMEDIATE: Int64 := 0x3FFF_FFFF_FFFF_FFFF
  const MIN_IMMEDIATE: Int64 := -0x4000_0000_0000_0000

  // int_to_any: two signed comparisons, then either shift and tag, or store in a
  // new box. `p` is what malloc returns.
  function IntToAny(v: Int64, heap: Heap, p: int): Boxed {
    if MAX_IMMEDIATE >= v && v >= MIN_IMMEDIATE
    then Word(Unsigned(Or(Shl1(v), 1)), heap)
    else if !FreeBox(heap, p) then NoMemory
    else Word(p, heap[p + 1 := v])
  }

  // any_to_int: the lowest bit decides for an immediate, the two lowest for a box.
  function AnyToInt(w: Word, heap: Heap): Unboxed {
    var i := Signed(w);
    if And(i, 1) != 0 then Int(AShr1(i))
    else if And(i, 3) == 0 then if w + 1 in heap then Int(heap[w + 1]) else Unmapped
    else Abort
  }

  function BoolToAny(b: bool): Word {
    if b then 14 else 6
  }

  // any_to_bool truncates the word to eight bits before comparing.
  function AnyToBool(w: Word): bool {
    w % 256 == 14
  }

  // ----- The value relation -----

  // The word w, in this heap, stands for the value v.
  predicate Encodes(heap: Heap, w: Word, v: Tagged) {
    match v
    case TaggedBool(b) => w == BoolToAny(b)
    case TaggedInt(n) =>
      if MIN_IMMEDIATE <= n <= MAX_IMMEDIATE then w == Unsigned(2 * n + 1)
      else w % 8 == 0 && w + 1 in heap && heap[w + 1] == n
  }

  predicate Extends(heap: Heap, heap': Heap) {
    forall a :: a in heap ==> a in heap' && heap'[a] == heap[a]
  }

  lemma LowBits(w: Word)
    ensures And(Signed(w), 1) == w % 2
    ensures And(Signed(w), 3) == w % 4
  {
    AndOne(Signed(w));
    AndThree(Signed(w));
  }

  // int_to_any gives a word for v, immediate exactly in the 63-bit range, and
  // otherwise the address of a new box; no cell of the old heap changes.
  lemma IntToAnyEncodes(v: Int64, heap: Heap, p: int)
    ensures var r := IntToAny(v, heap, p);
      && (r.NoMemory? ==> !FreeBox(heap, p))
      && (r.Word? ==>
            && Encodes(r.heap, r.w, TaggedInt(v)) && Extends(heap, r.heap)
            && (r.w % 2 == 1 <==> -TWO_63 <= 2 * v < TWO_63)
            && (r.w % 2 == 1 ==> r.heap == heap)
            && (r.w % 2 == 0 ==> r.w == p && p + 1 !in heap && r.heap.Keys == heap.Keys + {p + 1}))
  {
    if MIN_IMMEDIATE <= v <= MAX_IMMEDIATE {
      OrOne(2 * v);
    }
  }

  // What the two decoders give for a word that encodes a value.
  lemma DecodersAgree(heap: Heap, w: Word, v: Tagged)
    requires Encodes(heap, w, v)
    ensures AnyToInt(w, heap) == (if v.TaggedInt? then Int(v.n) else Abort)
    ensures AnyToBool(w) == (v == TaggedBool(true))
  {
    LowBits(w);
  }

  // The low bits tell the three kinds of word apart.
  lemma LowBitsTellKind(heap: Heap, w: Word, v: Tagged)
    requires Encodes(heap, w, v)
    ensures v.TaggedBool? <==> w % 4 == 2
    ensures v.TaggedInt? && MIN_IMMEDIATE <= v.n <= MAX_IMMEDIATE <==> w % 2 == 1
    ensures v.TaggedInt? && !(MIN_IMMEDIATE <= v.n <= MAX_IMMEDIATE) <==> w % 4 == 0
  {
  }

  // No word stands for two values.
  lemma EncodingIsUnambiguous(heap: Heap, w: Word, v: Tagged, v': Tagged)
    requires Encodes(heap, w, v) && Encodes(heap, w, v')
    ensures v == v'
  {
    DecodersAgree(heap, w, v);
    DecodersAgree(heap, w, v');
  }

  lemma EncodesInExtension(heap: Heap, heap': Heap, w: Word, v: Tagged)
    requires Encodes(heap, w, v) && Extends(heap, heap')
    ensures Encodes(heap', w, v)
  {
  }

  // Boxing and unboxing is the identity on all 64-bit values.
  lemma IntRoundTrip(v: Int64, heap: Heap, p: int)
    requires FreeBox(heap, p)
    ensures var r := IntToAny(v, heap, p);
      r.Word? && AnyToInt(r.w, r.heap) == Int(v)
  {
    IntToAnyEncodes(v, heap, p);
    var r := IntToAny(v, heap, p);
    DecodersAgree(r.heap, r.w, TaggedInt(v));
  }

  // ----- Runs of conversions -----

  // The heap after converting the integers in order, with malloc returning
  // where[i] for the i-th; None when one conversion runs out of memory.
  function BoxAll(vs: seq<Int64>, heap: Heap, where: seq<int>): Option<Heap>
    requires |where| == |vs|
  {
    if vs == [] then Some(heap)
    else
      var r := IntToAny(vs[0], heap, where[0]);
      if r.NoMemory? then None else BoxAll(vs[1..], r.heap, where[1..])
  }

  // Whatever is converted later, an encoded value still decodes to itself.
  lemma {:induction false} EncodedValuesPersist(vs: seq<Int64>, heap: Heap, where: seq<int>, w: Word, v: Tagged)
    requires |where| == |vs| && Encodes(heap, w, v) && BoxAll(vs, heap, where).Some?
    ensures var heap' := BoxAll(vs, heap, where).value;
      && Encodes(heap', w, v)
      && AnyToInt(w, heap') == AnyToInt(w, heap)
  {
    DecodersAgree(heap, w, v);
    if vs != [] {
      IntToAnyEncodes(vs[0], heap, where[0]);
      var r := IntToAny(vs[0], heap, where[0]);
      EncodesInExtension(heap, r.heap, w, v);
      EncodedValuesPersist(vs[1..], r.heap, where[1..], w, v);
      DecodersAgree(r.heap, w, v);
    }
  }
}

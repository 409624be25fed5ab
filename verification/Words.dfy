/** Machine words shared by the lock-free containers: the tagged pointer `NodePtr`,
    and the 32-bit counters updated with interlocked instructions. */
module Words {

  const TAGS: nat := 0x2_0000               // 17 tag bits
  const ADDRESSES: nat := 0x8000_0000_0000  // 47 address bits
  const TWO31: int := 0x8000_0000
  const TWO32: int := 0x1_0000_0000
  const TWO64: int := 0x1_0000_0000_0000_0000

  type Addr = a: nat | a < ADDRESSES
  type Tid = nat
  type Value = int

  datatype Option<+T> = None | Some(value: T)

  const NULL: Addr := 0

  /** The two bit fields of a `NodePtr`. */
  datatype Word = Word(tag: nat, addr: Addr)

  /** `raw == 0`. */
  const ZERO: Word := Word(0, NULL)

  /** A list node as it lies in memory. */
  datatype Node = Node(next: Word, data: Value)

  ghost predicate FitsWord(w: Word) {
    w.tag < TAGS
  }

  /** The 64-bit integer behind the union: the tag in the low 17 bits. */
  function Raw(w: Word): (raw: nat) {
    w.addr * TAGS + w.tag
  }

  function FromRaw(raw: nat): (w: Word)
    requires raw < TAGS * ADDRESSES
  {
    Word(raw % TAGS, raw / TAGS)
  }

  /** Packing loses nothing: the tag is the low 17 bits and the address the 47 bits above. */
  lemma RawRoundTrip(w: Word)
    requires FitsWord(w)
    ensures Raw(w) < TAGS * ADDRESSES && FromRaw(Raw(w)) == w
    ensures Raw(w) % 0x2_0000 == w.tag && Raw(w) / 0x2_0000 == w.addr
    ensures Raw(w) == 0 <==> w == ZERO
  {
  }

  /** Every 64-bit integer is the `raw` of a tag and an address. */
  lemma RawCovers(raw: nat)
    requires raw < 0x1_0000_0000_0000_0000
    ensures raw < TAGS * ADDRESSES && FitsWord(FromRaw(raw)) && Raw(FromRaw(raw)) == raw
  {
  }

  /** Comparing `raw` values, as every compare-exchange does, compares both fields. */
  lemma RawEquality(v: Word, w: Word)
    requires FitsWord(v) && FitsWord(w)
    ensures Raw(v) == Raw(w) <==> v == w
  {
  }

  /** The tag cut from an unbounded interlocked index. The wrap of the 32-bit or 64-bit
      field that holds the index does not show, because 2^17 divides its size. */
  function Tag(index: nat): (tag: nat)
    ensures tag < TAGS
  {
    index % TAGS
  }

  /** The tag is what the mask 0x1FFFF leaves: less than 2^17, and the index itself but for whole
      multiples of 2^17. */
  lemma TagIsMasked(index: nat)
    ensures Tag(index) < 0x2_0000 && (index - Tag(index)) % 0x2_0000 == 0
    ensures index < 0x2_0000 ==> Tag(index) == index
  {
  }

  /** `int oldCount = count` for an `unsigned int count`. */
  function Signed32(n: nat): (r: int)
    ensures n < 0x1_0000_0000 ==> -0x8000_0000 <= r < 0x8000_0000 && (r - n) % 0x1_0000_0000 == 0
  {
    if n < TWO31 then n else n - TWO32
  }

  /** The signed view of a wrapped counter is the 32-bit integer that differs from what was counted by a
      multiple of 2^32; there is only one. */
  lemma SignedOfWrapped(b: int)
    ensures -0x8000_0000 <= Signed32(b % TWO32) < 0x8000_0000 && (Signed32(b % TWO32) - b) % 0x1_0000_0000 == 0
    ensures -0x8000_0000 <= b < 0x8000_0000 ==> Signed32(b % TWO32) == b
  {
    var k := b / TWO32;
    assert b == b % TWO32 + TWO32 * k;
    if b % TWO32 < TWO31 { MultipleOf(-k); } else { MultipleOf(-k - 1); }
  }

  lemma MultipleOf(k: int)
    ensures (0x1_0000_0000 * k) % 0x1_0000_0000 == 0
  {
  }

  /** Wrapping after each step or once at the end makes no difference. */
  lemma WrapStep(n: int, d: int)
    ensures (n % TWO32 + d) % TWO32 == (n + d) % TWO32
  {
  }

  /** Taking one from a positive count takes one from the balance it stands for. */
  lemma BalanceDown(balance: int, count: nat, n: int)
    requires 0 <= balance && count == balance % TWO32 && Signed32(count) == n && 0 < n
    ensures 1 <= balance && (n - 1) % TWO32 == (balance - 1) % TWO32
  {
  }

  /** Two stamps with one tag, less than a full tag cycle apart, are one stamp. */
  lemma SameTagInWindow(older: nat, newer: nat)
    requires older <= newer < older + 0x2_0000
    requires Tag(older) == Tag(newer)
    ensures older == newer
  {
  }

  lemma SameTagExactly(s: nat, u: nat)
    ensures Tag(s) == Tag(u) <==> (u - s) % 0x2_0000 == 0
  {
  }

  /** The tag read from a wrapped index, of 32 or 64 bits, is the tag of the unbounded one. */
  lemma TagOfWrapped(index: nat)
    ensures Tag(index % TWO32) == Tag(index) && Tag(index % TWO64) == Tag(index)
  {
    TagShift(index % TWO32, 0x8000 * (index / TWO32));
    TagShift(index % TWO64, 0x8000_0000_0000 * (index / TWO64));
  }

  lemma TagShift(n: nat, k: nat)
    ensures Tag(n + TAGS * k) == Tag(n)
  {
  }

  lemma WrapIndex(n: nat)
    ensures (n % TWO64 + 1) % TWO64 == (n + 1) % TWO64
  {
  }
}

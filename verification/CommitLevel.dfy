/**
 The numbers behind the commit level of um_buffer_pool.c: how buffer size and level grow, how the bitmap of
 available buffer ids works, when it has an id to offer, and why the kernel never has more than 65 buffers to fill.
 */
module CommitLevel {
  import opened FlatStream

  const ENTRIES: nat := 1024
  const WORDS: nat := 16
  const INITIAL_SIZE: nat := 0x4000
  const INITIAL_LEVEL: nat := 0x40000
  const MAX_LEVEL: nat := 0x4000_0000
  const GROWTHS: nat := 12
  const USABLE: nat := 512  // the ids that 32-bit shifts can reach

  /** A buffer as it was published to the kernel. `gen` is how often the pool had grown by then. */
  datatype Entry = Entry(bid: nat, buf: nat, gen: nat)

  /** The bits of a 64-bit word, lowest first. */
  type Word = w: seq<bool> | |w| == 64 witness seq(64, _ => false)

  // ----- Sizes and levels

  function Pow2(n: nat): (r: nat)
    ensures r > 0
  {
    if n == 0 then 1 else 2 * Pow2(n - 1)
  }

  /** The buffer size and the commit level after `gen` growths. */
  function SizeOf(gen: nat): (size: nat)
    ensures size > 0
  {
    if gen == 0 then INITIAL_SIZE else INITIAL_SIZE * 4 * Pow2(gen)
  }

  function LevelOf(gen: nat): nat {
    INITIAL_LEVEL * Pow2(gen)
  }

  lemma LevelFacts(gen: nat)
    ensures LevelOf(gen) == (if gen == 0 then 16 else 4) * SizeOf(gen)
    ensures LevelOf(gen + 1) == 2 * LevelOf(gen)
    ensures SizeOf(gen + 1) == LevelOf(gen + 1) / 4 == if gen == 0 then 8 * SizeOf(gen) else 2 * SizeOf(gen)
  {
    assert Pow2(gen + 1) == 2 * Pow2(gen);
    if gen == 0 { assert Pow2(1) == 2; }
  }

  /** The level starts at 2^18, doubles with each growth and has reached its maximum of 2^30 after the twelfth. */
  lemma LevelMaximum(gen: nat)
    ensures LevelOf(gen) == Pow2(18 + gen) && MAX_LEVEL == Pow2(30) && GROWTHS == 12
    ensures LevelOf(gen) >= MAX_LEVEL <==> gen >= GROWTHS
  {
    Pow2Sum(18, gen);
    assert Pow2(18) == INITIAL_LEVEL by { assert Pow2(9) == 512; Pow2Sum(9, 9); }
    assert Pow2(12) == 4096 by { assert Pow2(6) == 64; Pow2Sum(6, 6); }
    Pow2Sum(18, 12);
    if gen >= GROWTHS {
      Pow2Sum(GROWTHS, gen - GROWTHS);
      ProductAtLeast(Pow2(GROWTHS), Pow2(gen - GROWTHS));
    } else {
      Pow2Sum(gen, GROWTHS - gen);
      Doubled(gen);
    }
  }

  /** The first buffers have 2^14 bytes, those after `gen` growths a quarter of 2^(18+gen), so that the sizes go from
      16 KB to 256 MB. */
  lemma SizesAre(gen: nat)
    ensures SizeOf(0) == 0x4000 == Pow2(14)
    ensures gen > 0 ==> SizeOf(gen) == Pow2(16 + gen) && 4 * SizeOf(gen) == LevelOf(gen)
  {
    assert Pow2(14) == 0x4000 by { assert Pow2(7) == 128; Pow2Sum(7, 7); }
    assert Pow2(16) == 0x10000 by { assert Pow2(8) == 256; Pow2Sum(8, 8); }
    Pow2Sum(16, gen);
  }

  /** The bitmap has a bit for each of 1024 ids, of which 512 can be reached. */
  lemma BitmapSize()
    ensures ENTRIES == 1024 == 64 * WORDS && USABLE == 512 == 32 * WORDS
  {
  }

  lemma ProductAtLeast(a: nat, b: nat)
    requires b > 0
    ensures a * b >= a
  {
  }

  lemma Doubled(gen: nat)
    requires gen < GROWTHS
    ensures 2 * Pow2(gen) <= Pow2(GROWTHS)
  {
    Pow2Sum(gen + 1, GROWTHS - gen - 1);
    ProductAtLeast(Pow2(gen + 1), Pow2(GROWTHS - gen - 1));
  }

  lemma {:induction false} Pow2Sum(m: nat, n: nat)
    ensures Pow2(m + n) == Pow2(m) * Pow2(n)
  {
    if m > 0 { Pow2Sum(m - 1, n); }
  }

  // ----- The bitmap of available buffer ids

  predicate Bit(bits: seq<Word>, k: nat) {
    k / 64 < |bits| && bits[k / 64][k % 64]
  }

  /** `bitmap_find_first_set_bit`: the lowest set bit of the first word that has one; past the end if none has. */
  function FirstSet(bits: seq<Word>): (k: nat)
    ensures k == 64 * |bits| || (k < 64 * |bits| && Bit(bits, k))
    ensures forall i :: 0 <= i < k ==> !Bit(bits, i)
  {
    FirstSetFrom(bits, 0)
  }

  function FirstSetFrom(bits: seq<Word>, from: nat): (k: nat)
    requires from <= 64 * |bits|
    ensures from <= k <= 64 * |bits|
    ensures k < 64 * |bits| ==> Bit(bits, k)
    ensures forall i :: from <= i < k ==> !Bit(bits, i)
    decreases 64 * |bits| - from
  {
    if from == 64 * |bits| || Bit(bits, from) then from else FirstSetFrom(bits, from + 1)
  }

  /** `bitmap_set`, for a bid that its 32-bit shift can reach. */
  function SetBit(bits: seq<Word>, k: nat): seq<Word>
    requires k / 64 < |bits| && k % 64 < 32
  {
    bits[k / 64 := bits[k / 64][k % 64 := true]]
  }

  /** `bitmap_unset`: the 32-bit mask also clears the upper half of the word. */
  function UnsetBit(bits: seq<Word>, k: nat): seq<Word>
    requires k / 64 < |bits| && k % 64 < 32
  {
    bits[k / 64 := Masked(bits[k / 64], k % 64)]
  }

  function Masked(w: Word, bit: nat): Word
    requires bit < 32
  {
    seq(64, i requires 0 <= i < 64 => w[i] && i < 32 && i != bit)
  }

  /** A bid of the lower half of a word is available exactly when its slot is empty; a bit of the upper half
      is set only while the lower half is as it was at the start. */
  ghost predicate BitmapOk(bits: seq<Word>, slots: seq<Option<nat>>) {
    && |bits| == WORDS && |slots| == ENTRIES
    && (forall k :: 0 <= k < ENTRIES && k % 64 < 32 ==> (Bit(bits, k) <==> slots[k].None?))
    && (forall k :: 0 <= k < ENTRIES && k % 64 >= 32 && Bit(bits, k) ==> slots[k].None? && Bit(bits, k / 64 * 64))
    && (forall k :: 0 <= k < ENTRIES && k % 64 >= 32 ==> slots[k].None?)
  }

  /** No commit overwrites a buffer, and shifts stay within 32 bits. */
  lemma AvailableBid(bits: seq<Word>, slots: seq<Option<nat>>)
    requires BitmapOk(bits, slots) && exists k :: 0 <= k < ENTRIES && k % 64 < 32 && slots[k].None?
    ensures var bid := FirstSet(bits); bid < ENTRIES && bid % 64 < 32 && slots[bid].None?
  {
    var k :| 0 <= k < ENTRIES && k % 64 < 32 && slots[k].None?;
    assert Bit(bits, k);
    var bid := FirstSet(bits);
    var low := bid / 64 * 64;
    assert low == bid || !Bit(bits, low);
    assert low == bid ==> bid % 64 == 0;
  }

  lemma UnsetKeepsBitmap(bits: seq<Word>, slots: seq<Option<nat>>, bid: nat, b: nat)
    requires BitmapOk(bits, slots) && bid < ENTRIES && bid % 64 < 32
    ensures BitmapOk(UnsetBit(bits, bid), slots[bid := Some(b)])
  {
    var bits' := UnsetBit(bits, bid);
    forall k | 0 <= k < ENTRIES
      ensures Bit(bits', k) <==> if k / 64 == bid / 64 then Bit(bits, k) && k % 64 < 32 && k != bid else Bit(bits, k)
    {
      SameWord(k, bid);
    }
    forall k | 0 <= k < ENTRIES && k % 64 >= 32 && Bit(bits', k) ensures Bit(bits', k / 64 * 64) {
      assert Bit(bits, k / 64 * 64);
      assert (k / 64 * 64) / 64 == k / 64;
    }
  }

  lemma SetKeepsBitmap(bits: seq<Word>, slots: seq<Option<nat>>, bid: nat)
    requires BitmapOk(bits, slots) && bid < ENTRIES && bid % 64 < 32
    ensures BitmapOk(SetBit(bits, bid), slots[bid := None])
  {
    var bits' := SetBit(bits, bid);
    forall k | 0 <= k < ENTRIES ensures Bit(bits', k) <==> Bit(bits, k) || k == bid {
      SameWord(k, bid);
    }
  }

  lemma SameWord(k: nat, bid: nat)
    ensures k == bid <==> k / 64 == bid / 64 && k % 64 == bid % 64
  {
  }

  // ----- How many buffers can be committed

  /** The capacity of some ring entries. */
  function Sum(es: seq<Entry>): nat {
    if es == [] then 0 else Sum(es[..|es| - 1]) + SizeOf(es[|es| - 1].gen)
  }

  function Count(es: seq<Entry>, gen: nat): nat {
    if es == [] then 0 else Count(es[..|es| - 1], gen) + if es[|es| - 1].gen == gen then 1 else 0
  }

  function CountBelow(es: seq<Entry>, gen: nat): nat {
    if es == [] then 0 else CountBelow(es[..|es| - 1], gen) + if es[|es| - 1].gen < gen then 1 else 0
  }

  /** Each entry was committed when those before it did not fill the commit level of the time. */
  ghost predicate Admitted(es: seq<Entry>) {
    forall j :: 0 <= j < |es| ==> es[j].gen <= GROWTHS && Sum(es[..j]) < LevelOf(es[j].gen)
  }

  lemma SumAppend(es: seq<Entry>, e: Entry)
    ensures Sum(es + [e]) == Sum(es) + SizeOf(e.gen)
  {
    assert (es + [e])[..|es|] == es;
  }

  lemma {:induction false} SumHead(es: seq<Entry>)
    requires es != []
    ensures Sum(es) == SizeOf(es[0].gen) + Sum(es[1..])
  {
    if |es| > 1 {
      var front := es[..|es| - 1];
      SumHead(front);
      assert front[1..] == es[1..][..|es| - 2];
    }
  }

  lemma AdmittedAppend(es: seq<Entry>, e: Entry)
    requires Admitted(es) && e.gen <= GROWTHS && Sum(es) < LevelOf(e.gen)
    ensures Admitted(es + [e])
  {
    var es' := es + [e];
    forall j | 0 <= j < |es'| ensures es'[j].gen <= GROWTHS && Sum(es'[..j]) < LevelOf(es'[j].gen) {
      if j < |es| { assert es'[..j] == es[..j]; } else { assert es'[..j] == es; }
    }
  }

  lemma AdmittedTail(es: seq<Entry>)
    requires Admitted(es) && es != []
    ensures Admitted(es[1..])
  {
    var es' := es[1..];
    forall j | 0 <= j < |es'| ensures es'[j].gen <= GROWTHS && Sum(es'[..j]) < LevelOf(es'[j].gen) {
      SumHead(es[..j + 1]);
      assert es[..j + 1][1..] == es'[..j];
    }
  }

  lemma {:induction false} CountFits(es: seq<Entry>, gen: nat)
    ensures Count(es, gen) * SizeOf(gen) <= Sum(es)
  {
    if es != [] { CountFits(es[..|es| - 1], gen); }
  }

  /** At most 16 of the first size and 4 of each later one. */
  lemma {:induction false} CountBound(es: seq<Entry>, gen: nat)
    requires Admitted(es)
    ensures Count(es, gen) <= if gen == 0 then 16 else 4
  {
    if es != [] {
      var n := |es| - 1;
      var front := es[..n];
      assert forall j :: 0 <= j < n ==> front[..j] == es[..j];
      CountBound(front, gen);
      if es[n].gen == gen {
        CountFits(front, gen);
        LevelFacts(gen);
        ProductMonotonic(Count(front, gen), if gen == 0 then 16 else 4, SizeOf(gen));
      }
    }
  }

  lemma ProductMonotonic(a: nat, b: nat, size: nat)
    ensures a >= b ==> a * size >= b * size
  {
    if a >= b { assert a * size == b * size + (a - b) * size; }
  }

  lemma {:induction false} CountBelowSplit(es: seq<Entry>, gen: nat)
    ensures CountBelow(es, gen + 1) == CountBelow(es, gen) + Count(es, gen)
    ensures CountBelow(es, 0) == 0
    ensures (forall j :: 0 <= j < |es| ==> es[j].gen < gen) ==> CountBelow(es, gen) == |es|
  {
    if es != [] { CountBelowSplit(es[..|es| - 1], gen); }
  }

  lemma {:induction false} CountBelowBound(es: seq<Entry>, gen: nat)
    requires Admitted(es)
    ensures CountBelow(es, gen) <= if gen == 0 then 0 else 12 + 4 * gen
  {
    CountBelowSplit(es, 0);
    if gen > 0 {
      CountBelowSplit(es, gen - 1);
      CountBound(es, gen - 1);
      CountBelowBound(es, gen - 1);
    }
  }

  /** 64 buffers, and the partly consumed one before them. */
  lemma AdmittedBound(es: seq<Entry>)
    requires Admitted(es)
    ensures |es| <= 64
  {
    CountBelowSplit(es, GROWTHS + 1);
    CountBelowBound(es, GROWTHS + 1);
  }

  // ----- Bids enough

  /** The `i`th bid that the bitmap can offer. */
  function UsableBid(i: nat): (bid: nat)
    ensures bid % 64 < 32 && bid / 64 * 32 + bid % 64 == i
  {
    i / 32 * 64 + i % 32
  }

  function UsableBids(n: nat): set<nat> {
    if n == 0 then {} else UsableBids(n - 1) + {UsableBid(n - 1)}
  }

  lemma {:induction false} UsableBidsCount(n: nat)
    ensures |UsableBids(n)| == n
    ensures forall bid :: bid in UsableBids(n) ==> bid % 64 < 32 && bid / 64 * 32 + bid % 64 < n
  {
    if n > 0 { UsableBidsCount(n - 1); }
  }

  function Bids(es: seq<Entry>): set<nat> {
    set i | 0 <= i < |es| :: es[i].bid
  }

  lemma {:induction false} SubsetCount(a: set<nat>, b: set<nat>)
    requires a <= b
    ensures |a| <= |b|
  {
    if a != {} {
      var x :| x in a;
      SubsetCount(a - {x}, b - {x});
    }
  }

  lemma UsableBidsAll(bid: nat, n: nat)
    requires bid % 64 < 32 && bid / 64 * 32 + bid % 64 < n
    ensures bid in UsableBids(n)
  {
    hide UsableBids;
    var i := bid / 64 * 32 + bid % 64;
    UsableBidIn(i, n);
    UsableBidOf(bid / 64, bid % 64);
  }

  lemma UsableBidOf(word: nat, bit: nat)
    requires bit < 32
    ensures UsableBid(word * 32 + bit) == word * 64 + bit
  {
  }

  lemma {:induction false} UsableBidIn(i: nat, n: nat)
    requires i < n
    ensures UsableBid(i) in UsableBids(n)
  {
    if i < n - 1 { UsableBidIn(i, n - 1); }
  }

  lemma {:induction false} DistinctBids(ring: seq<Entry>)
    requires forall i, j :: 0 <= i < j < |ring| ==> ring[i].bid != ring[j].bid
    ensures |Bids(ring)| == |ring|
  {
    if ring != [] {
      var n := |ring| - 1;
      var front := ring[..n];
      DistinctBids(front);
      assert Bids(ring) == Bids(front) + {ring[n].bid};
      assert ring[n].bid !in Bids(front);
    }
  }

  /** Of the ids that can be offered one is free if and only if fewer than all of them are taken. */
  lemma BidIsFreeIff(slots: seq<Option<nat>>, ring: seq<Entry>)
    requires |slots| == ENTRIES && forall i, j :: 0 <= i < j < |ring| ==> ring[i].bid != ring[j].bid
    requires forall k :: k in Bids(ring) <==> 0 <= k < ENTRIES && slots[k].Some?
    requires forall k :: k in Bids(ring) ==> k % 64 < 32
    ensures (exists k :: 0 <= k < ENTRIES && k % 64 < 32 && slots[k].None?) <==> |ring| < USABLE
    ensures |ring| <= USABLE
  {
    hide UsableBids, Bids;
    UsableBidsCount(USABLE);
    DistinctBids(ring);
    forall k | k in Bids(ring) ensures k in UsableBids(USABLE) { UsableBidsAll(k, USABLE); }
    SubsetCount(Bids(ring), UsableBids(USABLE));
    if k :| 0 <= k < ENTRIES && k % 64 < 32 && slots[k].None? {
      UsableBidsAll(k, USABLE);
      SubsetCount(Bids(ring) + {k}, UsableBids(USABLE));
    }
    if |ring| < USABLE {
      if UsableBids(USABLE) <= Bids(ring) {
        SubsetCount(UsableBids(USABLE), Bids(ring));
      } else {
        var k :| k in UsableBids(USABLE) && k !in Bids(ring);
        assert k < ENTRIES && k % 64 < 32 && slots[k].None?;
      }
    }
  }

  /** When every id that can be offered is taken, no bit of the bitmap is set. */
  lemma NoBidLeft(bits: seq<Word>, slots: seq<Option<nat>>)
    requires BitmapOk(bits, slots) && forall k :: 0 <= k < ENTRIES && k % 64 < 32 ==> slots[k].Some?
    ensures FirstSet(bits) == ENTRIES
  {
    forall k | 0 <= k < ENTRIES ensures !Bit(bits, k) {
      var low := k / 64 * 64;
      assert low % 64 == 0;
      assert !Bit(bits, low);
    }
  }

  // ----- How many commits a level takes

  /** How many buffers of a size it takes to fill `x` bytes. */
  function Parts(x: int, size: nat): nat
    requires size > 0
    decreases x
  {
    if x <= 0 then 0 else 1 + Parts(x - size, size)
  }
}

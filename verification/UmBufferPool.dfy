/**
 The buffer pool of `struct um`, changed in place. Every method is proved to do to the pool what the function of
 BufferPool does to its value; BufferPool's lemmas then say what that keeps. A buffer's address is its index among
 the buffers ever allocated.
 */
module UmBufferPool {
  import opened FlatStream
  import opened CommitLevel
  import P = BufferPool

  class UmPool {
    var bufs: seq<Option<P.Buffer>>
    var freelist: seq<nat>
    const slots: array<Option<nat>>
    const bitmap: array<Word>
    ghost var ring: seq<Entry>  // what has been added to the buffer ring, as far as it is not reported as used up
    ghost var lost: seq<Entry>
    ghost var reported: nat
    ghost var thrown: nat
    var count: nat
    var total: int
    var level: nat
    var size: nat
    ghost var gen: nat  // how often the pool has grown
    var numBuffers: int
    var space: int

    ghost function View(): P.Pool
      reads this, slots, bitmap
    {
      P.Pool(bufs, freelist, slots[..], bitmap[..], ring, lost, reported, thrown, count, total, level, size, gen,
             numBuffers, space)
    }

    /** `bp_setup`. */
    constructor ()
      ensures View() == P.Setup() && P.PoolOk(View())
      ensures fresh(slots) && fresh(bitmap)
    {
      hide P.PoolOk;
      slots := new Option<nat>[ENTRIES](_ => None);
      bitmap := new Word[WORDS](_ => P.AllOnes());
      bufs, freelist, count, total, numBuffers, space := [], [], 0, 0, 0, 0;
      ring, lost, reported, thrown := [], [], 0, 0;
      level, size, gen := INITIAL_LEVEL, INITIAL_SIZE, 0;
      new;
      P.SetupOk();
      assert View() == P.Setup();
    }

    /** `bitmap_find_first_set_bit`. The test in the C loop for having run out of words stands inside it, where it
        is never true: if no bit is set, the loop reads on past the bitmap. That is reported as not found. */
    method FindFirstSetBit() returns (found: bool, bid: nat)
      ensures bid == FirstSet(bitmap[..]) && (found <==> bid < 64 * bitmap.Length)
    {
      ghost var k := FirstSet(bitmap[..]);
      var word: nat := 0;
      while word < bitmap.Length && IsZero(bitmap[word])
        invariant word <= bitmap.Length && 64 * word <= k
        decreases bitmap.Length - word
      {
        ZeroWord(bitmap[..], word);
        word := word + 1;
      }
      if word == bitmap.Length { return false, 64 * word; }
      var bit := FirstOne(bitmap[word]);
      FirstOfWord(bitmap[..], word, bit);
      return true, word * 64 + bit;
    }

    /** `bitmap_set`. */
    method BitmapSet(bid: nat)
      requires bid / 64 < bitmap.Length && bid % 64 < 32
      modifies bitmap
      ensures bitmap[..] == SetBit(old(bitmap[..]), bid)
    {
      bitmap[bid / 64] := bitmap[bid / 64][bid % 64 := true];
    }

    /** `bitmap_unset`. */
    method BitmapUnset(bid: nat)
      requires bid / 64 < bitmap.Length && bid % 64 < 32
      modifies bitmap
      ensures bitmap[..] == UnsetBit(old(bitmap[..]), bid)
    {
      bitmap[bid / 64] := Masked(bitmap[bid / 64], bid % 64);
    }

    /** `bp_buffer_checkout`, with `buffer_alloc`. */
    method Checkout() returns (buffer: nat)
      requires freelist != [] ==> View().Live(freelist[0])
      modifies `bufs, `freelist, `numBuffers, `space
      ensures (View(), buffer) == P.Checkout(old(View()))
    {
      if freelist != [] {
        buffer := freelist[0];
        freelist := freelist[1..];
      } else {
        numBuffers := numBuffers + 1;
        space := space + size;
        buffer := |bufs|;
        bufs := bufs + [Some(P.Buffer(size, 0, 0, P.Blank(size)))];
      }
      var b := bufs[buffer].value;
      bufs := bufs[buffer := Some(b.(refs := b.refs + 1, pos := 0))];
      assert old(freelist) == [] ==> bufs == old(bufs) + [Some(b.(refs := 1))];
    }

    /** `buffer_free`. */
    method BufferFree(buffer: nat)
      requires View().Live(buffer)
      modifies `bufs, `freelist, `numBuffers, `space
      ensures View() == P.BufferFree(old(View()), buffer)
    {
      var len := bufs[buffer].value.len;
      if len != size {
        numBuffers := numBuffers - 1;
        space := space - len;
        bufs := bufs[buffer := None];
      } else {
        freelist := [buffer] + freelist;
      }
    }

    /** `bp_buffer_checkin`. */
    method Checkin(buffer: nat)
      requires View().Held(buffer)
      modifies `bufs, `freelist, `numBuffers, `space
      ensures View() == P.Checkin(old(View()), buffer)
    {
      var b := bufs[buffer].value;
      bufs := bufs[buffer := Some(b.(refs := b.refs - 1))];
      if b.refs - 1 == 0 { BufferFree(buffer); }
    }

    /** `bp_discard_buffer_freelist`. */
    method DiscardFreelist()
      requires P.Freeable(View())
      modifies `bufs, `freelist, `numBuffers, `space
      ensures View() == P.DiscardFree(old(View()))
    {
      while freelist != []
        invariant P.Freeable(View()) && P.DiscardFree(View()) == P.DiscardFree(old(View()))
        decreases |freelist|
      {
        P.DiscardFirst(View());
        var buffer := freelist[0];
        numBuffers := numBuffers - 1;
        space := space - bufs[buffer].value.len;
        bufs := bufs[buffer := None];
        freelist := freelist[1..];
      }
    }

    /** `commit_buffer`, which has an id for the buffer exactly if fewer than 512 slots are taken. */
    method CommitBuffer() returns (ok: bool)
      requires P.PoolOk(View()) && total < level
      modifies this, slots, bitmap
      ensures P.PoolOk(View()) && ok == (old(count) < USABLE)
      ensures View() == if ok then P.CommitNext(old(View())) else old(View())
    {
      hide P.PoolOk, FirstSet, UnsetBit, P.Extended;
      ghost var was := View();
      P.BidAvailableIff(was);
      var bid;
      ok, bid := FindFirstSetBit();
      if ok { CommitAs(bid); }
    }

    method CommitAs(bid: nat)
      requires P.PoolOk(View()) && total < level && count < USABLE && bid == FirstSet(bitmap[..])
      modifies this, slots, bitmap
      ensures P.PoolOk(View()) && View() == P.CommitNext(old(View()))
    {
      hide P.PoolOk, FirstSet, UnsetBit, P.Extended, P.Checkout;
      ghost var was := View();
      P.CommitKeeps(was);
      P.CheckoutKeeps(was);
      BitmapUnset(bid);
      CheckoutIgnoresBits(was, bitmap[..]);
      var buffer := Checkout();
      var b := bufs[buffer].value;
      bufs := bufs[buffer := Some(b.(refs := 1))];
      count := count + 1;
      slots[bid] := Some(buffer);
      total := total + b.len;
      ring := ring + [Entry(bid, buffer, gen)];
    }

    /** `uncommit_buffer`. */
    method UncommitBuffer(buffer: nat, bid: nat)
      requires View().Held(buffer) && slots.Length == ENTRIES && bitmap.Length == WORDS
      requires bid < ENTRIES && bid % 64 < 32 && ring != [] && count > 0
      modifies this, slots, bitmap
      ensures View() == P.Uncommit(old(View()), buffer, bid)
    {
      count := count - 1;
      slots[bid] := None;
      BitmapSet(bid);
      ring, reported := ring[1..], 0;
      Checkin(buffer);
    }

    /** `bp_ensure_commit_level`; not `ok` when it looks for an id and there is none. The test of the slot count
        never ends the loop. */
    method EnsureCommitLevel() returns (ok: bool)
      requires P.PoolOk(View())
      modifies this, slots, bitmap
      ensures P.PoolOk(View()) && View() == P.EnsureLevel(old(View()))
      ensures old(size) > 0 && ok == P.IdsSuffice(old(View()))
      ensures ok ==> total > level / 2
      ensures level == old(level) && count <= 65 + |lost| && lost == old(lost)
    {
      hide P.PoolOk, P.CommitNext, P.Fill, P.IdsSuffice;
      ghost var was := View();
      P.EnsureLevelKeeps(was);
      P.SlotBound(P.EnsureLevel(was));
      if total > level / 2 { return true; }
      ok := FillLoop();
    }

    method FillLoop() returns (ok: bool)
      requires P.PoolOk(View())
      modifies this, slots, bitmap
      ensures P.PoolOk(View()) && View() == P.Fill(old(View())) && (ok <==> total >= level)
    {
      hide P.PoolOk, P.CommitNext, P.Extended;
      P.CommitKeepsAll(View());
      while count < ENTRIES && total < level
        invariant P.PoolOk(View()) && P.Fill(View()) == P.Fill(old(View())) && count <= USABLE
        decreases ENTRIES - count
      {
        var committed := CommitBuffer();
        P.CommitKeepsAll(View());
        if !committed { return false; }
      }
      return true;
    }

    /** `bp_handle_enobufs`: raises, or lets the pool grow. */
    method HandleEnobufs() returns (ok: bool)
      requires P.PoolOk(View())
      modifies this
      ensures P.PoolOk(View()) && ok == (old(level) < MAX_LEVEL)
      ensures View() == if ok then P.Grow(old(View())) else old(View())
    {
      if level >= MAX_LEVEL { return false; }
      P.GrowKeeps(View());
      GrowPool();
      return true;
    }

    method GrowPool()
      requires P.PoolOk(View())
      modifies this
      ensures View() == P.Grow(old(View()))
    {
      hide P.PoolOk, P.Freeable, P.DiscardFree, P.GrownSize;
      GrowthFacts(View());
      level := level * 2;
      GrowSize();
      gen := gen + 1;
      DiscardFreelist();
    }

    method GrowSize()
      requires size > 0
      modifies `size
      ensures size == P.GrownSize(old(size), level)
    {
      while size < level / 4
        invariant size > 0 && P.GrownSize(size, level) == P.GrownSize(old(size), level)
        decreases level - size
      {
        size := size * 2;
      }
    }

    /** `bp_get_op_result_segment`: where the segment is, in the buffer that the slot names; not `ok` when ids run
        out. */
    method GetOpResultSegment(bid: nat, len: nat, more: bool) returns (ok: bool, buffer: nat, off: nat)
      requires P.PoolOk(View()) && P.Consumable(View(), bid, len, more)
      modifies this, slots, bitmap
      ensures P.PoolOk(View()) && View() == P.ProcessResult(old(View()), bid, len, more)
      ensures buffer == old(ring)[0].buf && off == P.HeadPos(old(View()))
      ensures old(size) > 0 && ok == P.IdsSuffice(P.ConsumeCommitted(old(View()), buffer, len))
    {
      hide P.PoolOk, P.Consumable, P.EnsureLevel, P.Uncommit, P.Processed;
      ghost var was := View();
      P.ConsumeKeeps(was, bid, len, more);
      P.ProcessResultKeeps(was, bid, len, more);
      P.ConsumedHead(was, bid, len, more);
      buffer := slots[bid].value;
      off := bufs[buffer].value.pos;
      Consume(buffer, len);
      total := total - len;
      reported := reported + len;
      ok := EnsureCommitLevel();
      if !more { UncommitBuffer(buffer, bid); }
    }

    /** A result that `um_process_cqe` throws away: the pool is not told. */
    ghost method ThrowResult(bid: nat, len: nat, more: bool)
      requires P.PoolOk(View()) && P.Consumable(View(), bid, len, more)
      modifies `ring, `lost, `reported, `thrown
      ensures P.PoolOk(View()) && View() == P.Throw(old(View()), len, more)
    {
      hide P.PoolOk;
      P.ThrowKeeps(View(), bid, len, more);
      thrown := thrown + len;
      if more {
        reported := reported + len;
      } else {
        lost := lost + [ring[0]];
        ring, reported := ring[1..], 0;
      }
    }

    /** `bp_buffer_consume`. */
    method Consume(buffer: nat, len: nat)
      requires View().Live(buffer)
      modifies `bufs
      ensures View() == P.Consume(old(View()), buffer, len)
    {
      var b := bufs[buffer].value;
      bufs := bufs[buffer := Some(b.(pos := b.pos + len, refs := b.refs + 1))];
    }
  }

  lemma CheckoutIgnoresBits(p: P.Pool, bits: seq<Word>)
    requires p.free != [] ==> p.Live(p.free[0])
    ensures P.Checkout(p.(bits := bits)) == (P.Checkout(p).0.(bits := bits), P.Checkout(p).1)
  {
  }

  lemma GrowthFacts(p: P.Pool)
    requires P.PoolOk(p)
    ensures p.size > 0
    ensures forall level: nat, size: nat, gen: nat :: P.Freeable(p.(level := level, size := size, gen := gen))
  {
  }

  predicate IsZero(w: Word) {
    forall i :: 0 <= i < 64 ==> !w[i]
  }

  /** `ffsll`, counted from 0, of a word that is not zero. */
  method FirstOne(w: Word) returns (bit: nat)
    requires !IsZero(w)
    ensures bit < 64 && w[bit] && forall i :: 0 <= i < bit ==> !w[i]
  {
    bit := 0;
    while !w[bit]
      invariant bit < 64 && forall i :: 0 <= i < bit ==> !w[i]
      decreases 64 - bit
    {
      assert bit < 63 || IsZero(w);
      bit := bit + 1;
    }
  }

  lemma ZeroWord(bits: seq<Word>, word: nat)
    requires word < |bits| && IsZero(bits[word]) && 64 * word <= FirstSet(bits)
    ensures 64 * (word + 1) <= FirstSet(bits)
  {
    var k := FirstSet(bits);
    assert k < 64 * |bits| ==> Bit(bits, k);
  }

  lemma FirstOfWord(bits: seq<Word>, word: nat, bit: nat)
    requires word < |bits| && bit < 64 && bits[word][bit]
    requires 64 * word <= FirstSet(bits) && forall i :: 0 <= i < bit ==> !bits[word][i]
    ensures FirstSet(bits) == word * 64 + bit
  {
    var k := FirstSet(bits);
    assert Bit(bits, word * 64 + bit);
    assert k <= word * 64 + bit;
    assert k / 64 == word && Bit(bits, k);
  }
}

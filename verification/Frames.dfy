/** The bits of the physical frame bitmap (src/memory/paging/PMM/pmm.c) and the set of frames they stand for. */
module Frames {

  const FRAME_SIZE := 4096

  // ---------- one byte ----------

  /** `1 << j`, for the eight bits of a byte. */
  function Mask(j: nat): bv8
    requires j < 8
  {
    [0x01, 0x02, 0x04, 0x08, 0x10, 0x20, 0x40, 0x80][j]
  }

  lemma MaskIsShift(j: nat)
    requires j < 8
    ensures Mask(j) == (1 as bv8) << j
  {
    if j == 0 {} else if j == 1 {} else if j == 2 {} else if j == 3 {}
    else if j == 4 {} else if j == 5 {} else if j == 6 {} else {}
  }

  predicate Bit(b: bv8, j: nat)
    requires j < 8
  {
    b & Mask(j) != 0
  }

  /** `(b >> j) & 1` */
  lemma BitIsShift(b: bv8, j: nat)
    requires j < 8
    ensures Bit(b, j) <==> (b >> j) & 1 == 1
  {
    if j == 0 {} else if j == 1 {} else if j == 2 {} else if j == 3 {}
    else if j == 4 {} else if j == 5 {} else if j == 6 {} else {}
  }

  /** The byte whose `n` highest bits are set: what `filler` holds after n - 1 turns of its loop. */
  function HighBits(n: nat): bv8
    requires n <= 8
  {
    [0x00, 0x80, 0xC0, 0xE0, 0xF0, 0xF8, 0xFC, 0xFE, 0xFF][n]
  }

  /** The byte whose `n` lowest bits are set. */
  function LowBits(n: nat): bv8
    requires n <= 8
  {
    [0x00, 0x01, 0x03, 0x07, 0x0F, 0x1F, 0x3F, 0x7F, 0xFF][n]
  }

  lemma HighBitsStep(n: nat)
    requires n < 8
    ensures (HighBits(n) >> 1) | 0x80 == HighBits(n + 1)
  {
  }

  lemma LowBitsStep(n: nat)
    requires n < 8
    ensures (LowBits(n) << 1) | 0x01 == LowBits(n + 1)
  {
  }

  lemma HighBitsAt(n: nat, k: nat)
    requires n <= 8 && k < 8
    ensures Bit(HighBits(n), k) <==> k >= 8 - n
  {
  }

  lemma LowBitsAt(n: nat, k: nat)
    requires n <= 8 && k < 8
    ensures Bit(LowBits(n), k) <==> k < n
  {
  }

  lemma MaskAt(j: nat, k: nat)
    requires j < 8 && k < 8
    ensures Bit(Mask(j), k) <==> k == j
  {
  }

  lemma OrAt(a: bv8, b: bv8, k: nat)
    requires k < 8
    ensures Bit(a | b, k) <==> Bit(a, k) || Bit(b, k)
  {
  }

  /** Clearing bit `j`. */
  lemma ClearAt(b: bv8, j: nat, k: nat)
    requires j < 8 && k < 8
    ensures Bit(b & !Mask(j), k) <==> Bit(b, k) && k != j
  {
  }

  /** A byte is 255 exactly when all its bits are set. */
  lemma FullByte(b: bv8)
    ensures b == 0xFF <==> forall k :: 0 <= k < 8 ==> Bit(b, k)
  {
    if forall k :: 0 <= k < 8 ==> Bit(b, k) {
      assert Bit(b, 0) && Bit(b, 1) && Bit(b, 2) && Bit(b, 3) && Bit(b, 4) && Bit(b, 5) && Bit(b, 6) && Bit(b, 7);
    }
  }

  /** A byte is its bits. */
  lemma SameByte(a: bv8, b: bv8)
    requires forall k :: 0 <= k < 8 ==> (Bit(a, k) <==> Bit(b, k))
    ensures a == b
  {
    assert Bit(a, 0) <==> Bit(b, 0);
    assert Bit(a, 1) <==> Bit(b, 1);
    assert Bit(a, 2) <==> Bit(b, 2);
    assert Bit(a, 3) <==> Bit(b, 3);
    assert Bit(a, 4) <==> Bit(b, 4);
    assert Bit(a, 5) <==> Bit(b, 5);
    assert Bit(a, 6) <==> Bit(b, 6);
    assert Bit(a, 7) <==> Bit(b, 7);
  }

  // ---------- the bitmap ----------

  /** Frame `g` is marked: bit g % 8 of byte g / 8. */
  predicate Taken(m: seq<bv8>, g: nat) {
    g / 8 < |m| && Bit(m[g / 8], g % 8)
  }

  /** Each byte stands for eight frames, its lowest bit for the lowest one. */
  lemma TakenIsBit(m: seq<bv8>, i: nat, j: nat)
    requires i < |m| && j < 8
    ensures Taken(m, 8 * i + j) <==> (m[i] >> j) & 1 == 1
  {
    hide Bit, Mask;
    assert (8 * i + j) / 8 == i && (8 * i + j) % 8 == j;
    BitIsShift(m[i], j);
  }

  /** The set of marked frames. */
  function Used(m: seq<bv8>): set<nat> {
    set g | 0 <= g < 8 * |m| && Taken(m, g)
  }

  /** Bitmaps of one length that stand for the same frames are equal, bit for bit. */
  lemma SameBitmap(m: seq<bv8>, n: seq<bv8>)
    requires |m| == |n| && Used(m) == Used(n)
    ensures m == n
  {
    forall i | 0 <= i < |m| ensures m[i] == n[i] {
      forall k | 0 <= k < 8 ensures Bit(m[i], k) <==> Bit(n[i], k) {
        var g := 8 * i + k;
        assert g / 8 == i && g % 8 == k;
        assert g in Used(m) <==> g in Used(n);
      }
      SameByte(m[i], n[i]);
    }
  }

  lemma SetUsed(m: seq<bv8>, f: nat)
    requires f / 8 < |m|
    ensures Used(m[f / 8 := m[f / 8] | Mask(f % 8)]) == Used(m) + {f}
  {
    forall g: nat {
      SetFrame(m, f, g);
    }
  }

  lemma ClearUsed(m: seq<bv8>, f: nat)
    requires f / 8 < |m|
    ensures Used(m[f / 8 := m[f / 8] & !Mask(f % 8)]) == Used(m) - {f}
  {
    forall g: nat {
      ClearFrame(m, f, g);
    }
  }

  /** Setting one bit marks one frame. */
  lemma SetFrame(m: seq<bv8>, f: nat, g: nat)
    requires f / 8 < |m|
    ensures Taken(m[f / 8 := m[f / 8] | Mask(f % 8)], g) <==> Taken(m, g) || g == f
  {
    if g / 8 == f / 8 {
      OrAt(m[f / 8], Mask(f % 8), g % 8);
      MaskAt(f % 8, g % 8);
    }
  }

  lemma MarkedFrame(m: seq<bv8>, f: nat, g: nat)
    ensures Taken(Marked(m, f / 8, Mask(f % 8)), g) <==> Taken(m, g) || (g / 8 < |m| && g == f)
  {
    if f / 8 < |m| {
      SetFrame(m, f, g);
    }
  }

  /** Clearing one bit releases one frame. */
  lemma ClearFrame(m: seq<bv8>, f: nat, g: nat)
    requires f / 8 < |m|
    ensures Taken(m[f / 8 := m[f / 8] & !Mask(f % 8)], g) <==> Taken(m, g) && g != f
  {
    if g / 8 == f / 8 {
      ClearAt(m[f / 8], f % 8, g % 8);
    }
  }

  // ---------- filling a range ----------

  /** A range of several frames that ends before bit 6 of its first byte: only its first frame is marked. */
  predicate Short(s: nat, n: nat) {
    n >= 2 && s % 8 + n < 7
  }

  /** One frame too many is marked: the fill reaches past bit 6 without a borrow from the whole bytes. */
  predicate Extra(s: nat, n: nat) {
    n >= 2 && !Short(s, n) && s % 8 <= 6 && s % 8 + (n - 1) % 8 >= 6
  }

  /** The frames fill_from_to marks for `n` frames from frame `s`. */
  predicate Filled(s: nat, n: nat, g: nat) {
    if Short(s, n) then g == s else s <= g < s + n || (g == s + n && Extra(s, n))
  }

  /** The fill marks the whole range exactly when it is a single frame or passes bit 6 of its first byte. */
  lemma FillCovers(s: nat, n: nat)
    ensures (forall g :: s <= g < s + n ==> Filled(s, n, g)) <==> n <= 1 || s % 8 + n >= 7
  {
    if Short(s, n) {
      assert !Filled(s, n, s + 1);
    }
  }

  /**
   What is marked, in terms of the range: its first frame, nothing before it and nothing behind the
   frame that follows it. That frame is marked exactly when the fill passes bit 6 of the first byte
   and takes nothing from the whole bytes.
   */
  lemma FilledExactly(s: nat, n: nat, g: nat)
    requires n > 0
    ensures Filled(s, n, s) && (Filled(s, n, g) ==> s <= g <= s + n)
    ensures Filled(s, n, s + n) <==> n > 1 && s % 8 + n >= 7 && s % 8 <= 6 && s % 8 + (n - 1) % 8 >= 6
    ensures n > 1 && s % 8 + n < 7 ==> (Filled(s, n, g) <==> g == s)
  {
  }

  /** `bitmap[block] |= marker`, for a block in the bitmap. */
  function Marked(m: seq<bv8>, block: nat, marker: bv8): (r: seq<bv8>)
    ensures |r| == |m|
  {
    if block < |m| then m[block := m[block] | marker] else m
  }

  /** The bytes behind the first one: `full` whole bytes, then the `part` low bits of the next, as far as the bitmap goes. */
  function TailBytes(m: seq<bv8>, block: nat, full: nat, part: nat): (r: seq<bv8>)
    requires part <= 8
    ensures |r| == |m|
  {
    seq(|m|, i requires 0 <= i < |m| =>
      if block < i <= block + full then 0xFF
      else if i == block + full + 1 then m[i] | LowBits(part)
      else m[i])
  }

  lemma TailByte(m: seq<bv8>, block: nat, full: nat, part: nat, i: nat)
    requires part <= 8 && i < |m|
    ensures TailBytes(m, block, full, part)[i] ==
            if block < i <= block + full then 0xFF else if i == block + full + 1 then m[i] | LowBits(part) else m[i]
  {
    hide LowBits;
  }

  lemma FullBit(k: nat)
    requires k < 8
    ensures Bit(0xFF, k)
  {
    FullByte(0xFF);
  }

  /** Byte and bit of frame `g`, against a stretch that ends `part` bits into byte `last`. */
  lemma TailRange(block: nat, full: nat, part: nat, g: nat)
    requires part <= 8
    ensures block < g / 8 <= block + full ==> 8 * (block + 1) <= g < 8 * (block + 1 + full) + part
    ensures g / 8 == block + full + 1 ==> (g % 8 < part <==> 8 * (block + 1) <= g < 8 * (block + 1 + full) + part)
    ensures g / 8 <= block || g / 8 > block + full + 1 ==> !(8 * (block + 1) <= g < 8 * (block + 1 + full) + part)
  {
    assert g == g / 8 * 8 + g % 8;
  }

  lemma TailFrames(m: seq<bv8>, block: nat, full: nat, part: nat, g: nat)
    requires part <= 8
    ensures Taken(TailBytes(m, block, full, part), g) <==>
            Taken(m, g) || (g / 8 < |m| && 8 * (block + 1) <= g < 8 * (block + 1 + full) + part)
  {
    hide Bit, LowBits, Mask, TailBytes;
    var i, k := g / 8, g % 8;
    TailRange(block, full, part, g);
    if i < |m| {
      TailByte(m, block, full, part, i);
      FullBit(k);
      OrAt(m[i], LowBits(part), k);
      LowBitsAt(part, k);
    }
  }

  /** The first byte: bit f, and the high bits the filler has collected. */
  lemma HeadFrames(m: seq<bv8>, s: nat, n: nat, g: nat)
    requires 1 <= n <= 8
    ensures var h := Marked(m, s / 8, Mask(s % 8));
            Taken(Marked(h, s / 8, HighBits(n)), g) <==>
            Taken(m, g) || (g / 8 < |m| && (g == s || (g / 8 == s / 8 && g % 8 >= 8 - n)))
  {
    hide Bit, Mask, HighBits;
    var h := Marked(m, s / 8, Mask(s % 8));
    MarkedFrame(m, s, g);
    if g / 8 == s / 8 < |m| {
      OrAt(h[s / 8], HighBits(n), g % 8);
      HighBitsAt(n, g % 8);
    }
  }
}

/** Page table entries and virtual addresses as the 64-bit words of kernel/riscv.h, laid out as in
    section 4.4 (Sv39) of the RISC-V Privileged Architecture, version 1.12. */
module PageBits {
  import opened PageTable
  import VmModel

  const PTE_V: bv64 := 1

  function PA2PTE(pa: bv64): bv64 { (pa >> 12) << 10 }
  function PTE2PA(pte: bv64): bv64 { (pte >> 10) << 12 }
  function PTEFlags(pte: bv64): bv64 { pte & 0x3FF }

  /** The index of va at each level: PX(level, va). */
  function PX(level: nat, va: bv64): bv64
    requires level <= 2
  {
    if level == 0 then (va >> 12) & 0x1FF else if level == 1 then (va >> 21) & 0x1FF else (va >> 30) & 0x1FF
  }

  /** An entry made from a page address and flags gives both back, for every page-aligned address. */
  lemma EntryRoundTrip(pa: bv64, flags: bv64)
    requires pa & 0xFFF == 0 && flags & !0x3FF == 0
    ensures PTE2PA(PA2PTE(pa) | flags | PTE_V) == pa && PTEFlags(PA2PTE(pa) | flags | PTE_V) == flags | PTE_V
  {
  }

  /** An address below MAXVA is its three indices and its offset, put together. */
  lemma Reassemble(va: bv64)
    requires va >> 38 == 0
    ensures va == (PX(2, va) << 30) | (PX(1, va) << 21) | (PX(0, va) << 12) | (va & 0xFFF)
  {
  }

  /** So the indices and the offset determine the address. */
  lemma IndicesAreInjective(va: bv64, vb: bv64)
    requires va >> 38 == 0 && vb >> 38 == 0
    requires PX(0, va) == PX(0, vb) && PX(1, va) == PX(1, vb) && PX(2, va) == PX(2, vb) && va & 0xFFF == vb & 0xFFF
    ensures va == vb
  {
    Reassemble(va);
    Reassemble(vb);
  }

  // ---------------------------------------------------------------- the same indices as numbers

  /** The number a word stands for. */
  function Value(x: bv64): nat
    decreases x
  {
    if x == 0 then 0 else 2 * Value(x >> 1) + Bit0(x)
  }

  function Bit0(x: bv64): nat { if x & 1 == 1 then 1 else 0 }

  predicate Half(x: bv64, y: bv64) { y == x >> 1 }
  predicate Eighth(x: bv64, y: bv64) { y == x >> 3 }

  lemma Step(x: bv64, y: bv64)
    requires Half(x, y)
    ensures Value(x) == 2 * Value(y) + Bit0(x)
  {
  }

  lemma Steps3(x: bv64, a: bv64, b: bv64, y: bv64)
    requires Half(x, a) && Half(a, b) && Half(b, y)
    ensures Value(x) == 8 * Value(y) + Bit0(x) + 2 * Bit0(a) + 4 * Bit0(b)
  {
    hide Value, Bit0, Half;
    Step(x, a);
    Step(a, b);
    Step(b, y);
  }

  function Low3(x: bv64): (n: nat)
    ensures n < 8
  {
    Bit0(x) + 2 * Bit0(x >> 1) + 4 * Bit0(x >> 2)
  }

  lemma Bits3(x: bv64, y: bv64)
    requires Eighth(x, y)
    ensures Value(x) == 8 * Value(y) + Low3(x)
  {
    hide Value, Bit0;
    Steps3(x, x >> 1, x >> 2, y);
  }

  lemma Low3Is(x: bv64, y: bv64)
    requires x & 7 == y & 7
    ensures Low3(x) == Low3(y)
  {
    assert x & 1 == y & 1 && (x >> 1) & 1 == (y >> 1) & 1 && (x >> 2) & 1 == (y >> 2) & 1;
  }

  lemma Bits9(x: bv64, a: bv64, b: bv64, y: bv64)
    requires Eighth(x, a) && Eighth(a, b) && Eighth(b, y)
    ensures Value(x) == 512 * Value(y) + Low3(x) + 8 * Low3(a) + 64 * Low3(b)
  {
    hide Value, Low3, Eighth;
    Bits3(x, a);
    Bits3(a, b);
    Bits3(b, y);
  }

  lemma ValueOfZero()
    ensures Value(0) == 0
  {
  }

  /** Nine bits of a word, cut off below. */
  lemma Cut9(x: bv64)
    ensures Value(x & 0x1FF) < 512 && Value(x) == 512 * Value(x >> 9) + Value(x & 0x1FF)
  {
    hide Value, Low3;
    var y := x & 0x1FF;
    assert y >> 9 == 0 && y & 7 == x & 7 && (y >> 3) & 7 == (x >> 3) & 7 && (y >> 6) & 7 == (x >> 6) & 7;
    Bits9(x, x >> 3, x >> 6, x >> 9);
    Bits9(y, y >> 3, y >> 6, 0);
    ValueOfZero();
    Low3Is(x, y);
    Low3Is(x >> 3, y >> 3);
    Low3Is(x >> 6, y >> 6);
  }

  predicate ShiftedBy9(x: bv64, y: bv64) { y == x >> 9 }

  lemma Shift9(x: bv64, y: bv64)
    requires ShiftedBy9(x, y)
    ensures Value(y) == Value(x) / 512 && Value(x & 0x1FF) == Value(x) % 512
  {
    hide Value;
    Cut9(x);
  }

  /** The virtual page of an address. */
  lemma PageOf(va: bv64)
    ensures Value(va >> 12) == Value(va) / 4096
  {
    hide Value, Low3;
    Shift9(va, va >> 9);
    Bits3(va >> 9, va >> 12);
  }

  lemma Below256(x: bv64)
    requires x >> 8 == 0
    ensures Value(x) < 256
  {
    hide Value, Bit0;
    var y := x << 1;
    assert y & 0x1FF == y && y >> 1 == x;
    Cut9(y);
    Step(y, x);
  }

  lemma ThreeIndices(u: bv64, v: bv64, w: bv64)
    requires ShiftedBy9(u, v) && ShiftedBy9(v, w) && Value(w) < 256
    ensures Value(u) < MAXPAGE
    ensures Value(u & 0x1FF) == VmModel.PX(0, Value(u)) && Value(v & 0x1FF) == VmModel.PX(1, Value(u))
    ensures Value(w) == VmModel.PX(2, Value(u))
  {
    hide Value, ShiftedBy9;
    Shift9(u, v);
    Shift9(v, w);
  }

  /** The indices walk() takes from the bits of an address are those of its page number: below MAXVA the
      two definitions of PX agree. */
  lemma IndicesAgree(level: nat, va: bv64)
    requires level <= 2 && va >> 38 == 0
    ensures Value(va) / 4096 < MAXPAGE
    ensures Value(PX(level, va)) == VmModel.PX(level, Value(va) / 4096)
  {
    hide Value, VmModel.PX;
    assert ((va >> 30) & 0x1FF) == va >> 30;
    PageOf(va);
    Below256(va >> 30);
    ThreeIndices(va >> 12, va >> 21, va >> 30);
  }
}

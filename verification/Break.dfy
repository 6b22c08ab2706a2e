/** The arithmetic of sbrk(): what its int argument becomes, and where the break goes. */
module Break {

  /** A number passed as an int: its low 32 bits, read as a signed number. */
  function Int32(x: nat): (n: int)
    ensures -0x8000_0000 <= n < 0x8000_0000
  {
    var low := x % 0x1_0000_0000;
    if low < 0x8000_0000 then low else low - 0x1_0000_0000
  }

  /** p->sz after sys_sbrk(n): growing can fail, shrinking cannot, and shrinking below nothing wraps
      and changes nothing. */
  function NewSize(sz: nat, n: int, ok: bool): nat
  {
    if ok && sz + n >= 0 then sz + n else sz
  }
}

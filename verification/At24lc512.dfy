/** The AT24LC512 EEPROM chip and its driver.

    The chip holds 65536 bytes in pages of 128. A write transaction that runs past the end of
    its page wraps to the start of the same page; a read transaction continues from the chip's
    own address counter. Bus faults come from a script of outcomes, one per bus operation. */
module At24lc512 {

  type byte = x: int | 0 <= x < 256

  const SIZE := 65536
  const PAGE := 128
  const READ_CHUNK := 32

  /** A chip image. */
  type Image = m: seq<byte> | |m| == 65536 witness seq(65536, _ => 0)

  /** What one bus operation does. A failed page write may have stored some of its bytes. */
  datatype Outcome = Ack | Nack(landed: nat)

  datatype Error = Ok | NoBus | I2c

  /** Address `a` is `Distance(start, a)` bytes after `start` on the address ring. */
  function Distance(start: int, a: int): (d: nat)
    ensures d < SIZE
  {
    (a - start) % SIZE
  }

  /** The flat meaning of a write: byte k goes to address (addr + k) modulo the size. */
  function FlatWrite(m: Image, addr: nat, data: seq<byte>): (r: Image)
    requires |data| <= SIZE
  {
    seq(SIZE, a requires 0 <= a < SIZE =>
      if Distance(addr, a) < |data| then data[Distance(addr, a)] else m[a])
  }

  /** The flat meaning of a read. */
  function FlatRead(m: Image, addr: nat, len: nat): (r: seq<byte>)
    ensures |r| == len
  {
    seq(len, k requires 0 <= k < len => m[(addr + k) % SIZE])
  }

  /** What the chip does with one write transaction: the low seven address bits wrap. */
  function PageWrite(m: Image, addr: nat, data: seq<byte>): (r: Image)
    requires addr < SIZE && |data| <= PAGE
  {
    seq(SIZE, a requires 0 <= a < SIZE =>
      if a / PAGE == addr / PAGE && (a - addr) % PAGE < |data| then data[(a - addr) % PAGE] else m[a])
  }

  // ----- the laws of flat writes and reads

  lemma DistanceAfter(addr: nat, k: nat)
    requires k < SIZE
    ensures Distance(addr, (addr + k) % SIZE) == k
  {
    var q := (addr + k) / SIZE;
    assert (addr + k) % SIZE - addr == k + (-q) * SIZE;
    ModUnique(k + (-q) * SIZE, -q, k);
  }

  lemma ModUnique(x: int, q: int, r: int)
    requires x == q * SIZE + r && 0 <= r < SIZE
    ensures x % SIZE == r
  {
  }

  /** What is written is what is read back. */
  lemma {:induction false} ReadBack(m: Image, addr: nat, data: seq<byte>)
    requires |data| <= SIZE
    ensures FlatRead(FlatWrite(m, addr, data), addr, |data|) == data
  {
    forall k | 0 <= k < |data|
      ensures FlatRead(FlatWrite(m, addr, data), addr, |data|)[k] == data[k]
    {
      DistanceAfter(addr, k);
    }
  }

  /** Two writes end to end are one write of the joined data. */
  lemma {:induction false} WriteJoin(m: Image, addr: nat, a: seq<byte>, b: seq<byte>)
    requires |a| + |b| <= SIZE
    ensures FlatWrite(FlatWrite(m, addr, a), (addr + |a|) % SIZE, b) == FlatWrite(m, addr, a + b)
  {
    forall x | 0 <= x < SIZE
      ensures FlatWrite(FlatWrite(m, addr, a), (addr + |a|) % SIZE, b)[x] == FlatWrite(m, addr, a + b)[x]
    {
      var d := Distance(addr, x);
      var e := Distance((addr + |a|) % SIZE, x);
      DistanceShift(addr, |a|, x);
      assert e == if d >= |a| then d - |a| else d - |a| + SIZE;
    }
  }

  lemma DistanceShift(addr: nat, n: nat, x: nat)
    requires n <= SIZE
    ensures Distance((addr + n) % SIZE, x)
         == if Distance(addr, x) >= n then Distance(addr, x) - n else Distance(addr, x) - n + SIZE
  {
    var q := (addr + n) / SIZE;
    var p := (x - addr) / SIZE;
    var d := Distance(addr, x);
    assert x - (addr + n) % SIZE == (p + q) * SIZE + d - n;
    if d >= n {
      if d - n < SIZE { ModUnique(x - (addr + n) % SIZE, p + q, d - n); }
    } else {
      ModUnique(x - (addr + n) % SIZE, p + q - 1, d - n + SIZE);
    }
  }

  lemma WriteNothing(m: Image, addr: nat)
    ensures FlatWrite(m, addr, []) == m
  {
  }

  /** Two reads end to end are one read. */
  lemma ReadJoin(m: Image, addr: nat, j: nat, k: nat)
    ensures FlatRead(m, addr, j) + FlatRead(m, (addr + j) % SIZE, k) == FlatRead(m, addr, j + k)
  {
    var both := FlatRead(m, addr, j) + FlatRead(m, (addr + j) % SIZE, k);
    forall x | j <= x < j + k
      ensures both[x] == FlatRead(m, addr, j + k)[x]
    {
      AddressAdvance(addr, j, x - j);
    }
  }

  /** A write that stays inside one page is a flat write: the chip's wrap never happens. */
  lemma {:induction false} PageWriteIsFlat(m: Image, addr: nat, data: seq<byte>)
    requires addr < SIZE && addr % PAGE + |data| <= PAGE
    ensures PageWrite(m, addr, data) == FlatWrite(m, addr, data)
  {
    forall a | 0 <= a < SIZE
      ensures PageWrite(m, addr, data)[a] == FlatWrite(m, addr, data)[a]
    {
      if addr <= a < addr + |data| {
        assert a / PAGE == addr / PAGE;
        assert (a - addr) % PAGE == a - addr && (a - addr) % SIZE == a - addr;
      } else if a < addr {
        ModUnique(a - addr, -1, a - addr + SIZE);
        if a / PAGE == addr / PAGE {
          var page := addr / PAGE;
          assert addr - PAGE < a;
          assert (a - addr) % PAGE == a - addr + PAGE;
        }
      } else {
        assert (a - addr) % SIZE == a - addr;
        if a / PAGE == addr / PAGE {
          assert a - addr < PAGE;
          assert (a - addr) % PAGE == a - addr;
        }
      }
    }
  }

  function Min(a: int, b: int): int { if a < b then a else b }

  /** `usedBytes`: the highest end of any write so far, clipped to the chip. */
  function HighWater(used: nat, addr: nat, len: nat): (r: nat)
    ensures r >= used
    ensures r == used || r == Min(addr + len, SIZE)
    ensures Min(addr + len, SIZE) <= r
  {
    if Min(addr + len, SIZE) > used then Min(addr + len, SIZE) else used
  }

  /** Whether `n` bus operations in a row are acknowledged, and what is left of the script after them or after the first
      that is not. */
  function Taken(bus: seq<Outcome>, n: nat): (bool, seq<Outcome>)
    decreases n
  {
    if n == 0 || bus == [] then (true, bus)
    else if bus[0].Nack? then (false, bus[1..])
    else Taken(bus[1..], n - 1)
  }

  lemma TakenStep(bus: seq<Outcome>, n: nat)
    requires n > 0
    ensures var (ok, rest) := Taken(bus, 1); Taken(bus, n) == if ok then Taken(rest, n - 1) else (false, rest)
  {
    if bus != [] && bus[0].Ack? { assert Taken(bus[1..], 0) == (true, bus[1..]); }
  }

  function Chunks(len: nat): nat { (len + READ_CHUNK - 1) / READ_CHUNK }

  lemma ChunksLeft(len: nat)
    requires len > 0
    ensures Chunks(len) == 1 + Chunks(len - Min(len, READ_CHUNK))
  {
  }

  /** How a read fares on the bus: its lock, the address, and one operation for each chunk. */
  function ReadTakes(wired: bool, bus: seq<Outcome>, len: nat): (bool, seq<Outcome>) {
    if wired then Taken(bus, 2 + Chunks(len)) else (false, bus)
  }

  /** The driver, with the chip behind its bus. */
  class At24 {
    var wired: bool
    var err: Error
    var used_end: nat
    var chip: Image            // hardware
    var bus: seq<Outcome>      // what the next bus operations will do; acknowledged once it runs out

    constructor (wired: bool, chip: Image, bus: seq<Outcome>)
      ensures this.wired == wired && this.chip == chip && this.bus == bus
      ensures err == Ok && used_end == 0
    {
      this.wired, this.chip, this.bus := wired, chip, bus;
      err, used_end := Ok, 0;
    }

    /** Nothing on the bus will fail. */
    predicate Healthy()
      reads this
    {
      wired && forall o <- bus :: o.Ack?
    }

    /** One bus operation. */
    method Bus() returns (o: Outcome)
      modifies this`bus
      ensures old(Healthy()) ==> o.Ack? && Healthy()
      ensures (o.Ack?, bus) == Taken(old(bus), 1)
    {
      if |bus| == 0 { return Ack; }
      o := bus[0];
      bus := bus[1..];
    }

    /** Stores `buf` in page-sized chunks: all of it on success, otherwise the first `landed` bytes. */
    method Write(mem_addr: nat, buf: seq<byte>) returns (ok: bool, ghost landed: nat)
      requires mem_addr < SIZE && |buf| < SIZE
      modifies this
      ensures wired == old(wired)
      ensures landed <= |buf| && (ok ==> landed == |buf|)
      ensures chip == FlatWrite(old(chip), mem_addr, buf[..landed])
      ensures used_end == if ok then HighWater(old(used_end), mem_addr, |buf|) else old(used_end)
      ensures err == Ok <==> ok
      ensures old(Healthy()) ==> ok && Healthy()
    {
      landed := 0;
      WriteNothing(chip, mem_addr);
      if !wired {
        err := NoBus;
        return false, landed;
      }
      var lock := Bus();
      if lock.Nack? {
        err := I2c;
        return false, landed;
      }
      var addr := mem_addr;
      var i := 0;
      ghost var before := chip;
      while i < |buf|
        invariant 0 <= i <= |buf| && landed == i
        invariant addr == (mem_addr + i) % SIZE
        invariant chip == FlatWrite(before, mem_addr, buf[..i])
        invariant wired && used_end == old(used_end) && before == old(chip)
        invariant old(Healthy()) ==> Healthy()
      {
        var page_off := addr % PAGE;
        var chunk := Min(|buf| - i, PAGE - page_off);
        var o := Bus();
        var stored := if o.Nack? then Min(o.landed, chunk) else chunk;
        ChunkLands(before, mem_addr, buf, i, stored);
        chip := PageWrite(chip, addr, buf[i..i + stored]);
        landed := i + stored;
        if o.Nack? {
          err := I2c;
          return false, landed;
        }
        AddressAdvance(mem_addr, i, chunk);
        addr := (addr + chunk) % SIZE;
        i := i + chunk;
      }
      assert buf[..i] == buf;
      var end := mem_addr + |buf|;
      if end > SIZE { end := SIZE; }
      if end > used_end { used_end := end; }
      err := Ok;
      return true, landed;
    }

    /** Reads `len` bytes in chunks of at most 32, the chip's address counter carrying on. */
    method Read(mem_addr: nat, len: nat) returns (ok: bool, buf: seq<byte>)
      requires mem_addr < SIZE && len < SIZE
      modifies this`bus, this`err
      ensures ok ==> buf == FlatRead(chip, mem_addr, len) && err == Ok
      ensures !ok ==> err != Ok
      ensures (ok, bus) == ReadTakes(wired, old(bus), len)
      ensures old(Healthy()) ==> ok && Healthy()
    {
      buf := [];
      if !wired {
        err := NoBus;
        return false, buf;
      }
      TakenStep(bus, 2 + Chunks(len));
      var lock := Bus();
      if lock.Nack? {
        err := I2c;
        return false, buf;
      }
      TakenStep(bus, 1 + Chunks(len));
      var select := Bus();
      if select.Nack? {
        err := I2c;
        return false, buf;
      }
      var counter := mem_addr;   // the chip's own address counter
      while |buf| < len
        invariant |buf| <= len
        invariant counter == (mem_addr + |buf|) % SIZE
        invariant buf == FlatRead(chip, mem_addr, |buf|)
        invariant Taken(old(bus), 2 + Chunks(len)) == Taken(bus, Chunks(len - |buf|))
        invariant old(Healthy()) ==> Healthy()
        decreases len - |buf|
      {
        var chunk := Min(len - |buf|, READ_CHUNK);
        ChunksLeft(len - |buf|);
        TakenStep(bus, Chunks(len - |buf|));
        var o := Bus();
        if o.Nack? {
          err := I2c;
          return false, buf;
        }
        ReadJoin(chip, mem_addr, |buf|, chunk);
        AddressAdvance(mem_addr, |buf|, chunk);
        buf := buf + FlatRead(chip, counter, chunk);
        counter := (counter + chunk) % SIZE;
      }
      err := Ok;
      return true, buf;
    }
  }

  lemma AddressAdvance(start: nat, i: nat, n: nat)
    ensures ((start + i) % SIZE + n) % SIZE == (start + (i + n)) % SIZE
  {
    var q := (start + i) / SIZE;
    var p := (start + i + n) / SIZE;
    ModUnique((start + i) % SIZE + n, p - q, (start + i + n) % SIZE);
  }

  /** One chunk extends the prefix already stored. */
  lemma ChunkLands(before: Image, start: nat, buf: seq<byte>, i: nat, n: nat)
    requires start < SIZE && |buf| < SIZE && i + n <= |buf|
    requires (start + i) % SIZE % PAGE + n <= PAGE
    ensures PageWrite(FlatWrite(before, start, buf[..i]), (start + i) % SIZE, buf[i..i + n])
         == FlatWrite(before, start, buf[..i + n])
  {
    PageWriteIsFlat(FlatWrite(before, start, buf[..i]), (start + i) % SIZE, buf[i..i + n]);
    WriteJoin(before, start, buf[..i], buf[i..i + n]);
    assert buf[..i] + buf[i..i + n] == buf[..i + n];
  }
}

/** The memory of the frozen target: bytes, protections, and what the kernel does to them. */
module TargetMemory {
  import opened Bytes

  type Mem = map<nat, Byte>

  datatype Region = Region(addr: nat, len: nat)

  predicate Covers(r: Region, x: int) {
    r.addr <= x < r.addr + r.len
  }

  predicate Apart(a: Region, b: Region) {
    a.addr + a.len <= b.addr || b.addr + b.len <= a.addr
  }

  /** The byte at x; unmapped addresses read as zero in specifications. */
  function At(m: Mem, x: nat): Byte {
    if x in m then m[x] else 0
  }

  function Slice(m: Mem, r: Region): (s: seq<Byte>)
    ensures |s| == r.len
    ensures forall i :: 0 <= i < r.len ==> s[i] == At(m, r.addr + i)
  {
    seq(r.len, i requires 0 <= i < r.len => At(m, r.addr + i))
  }

  /**
   * madvise(MADV_DONTNEED): every byte of r reads afterwards as in `base`, which holds zero for
   * anonymous memory and the file's content for a private file mapping.
   */
  function Dontneed(m: Mem, base: Mem, r: Region): (m': Mem)
    ensures m'.Keys == m.Keys
  {
    map x | x in m :: if Covers(r, x) then At(base, x) else m[x]
  }

  function StoreByte(m: Mem, x: nat, b: Byte): (m': Mem)
    ensures m'.Keys == m.Keys
  {
    if x in m then m[x := b] else m
  }

  /** The memory after the bytes `data` are stored from address a on. */
  function Store(m: Mem, a: nat, data: seq<Byte>): (m': Mem)
    ensures m'.Keys == m.Keys
  {
    map x | x in m :: if a <= x < a + |data| then data[x - a] else m[x]
  }

  datatype Prot = Prot(read: bool, write: bool, exec: bool)

  type ProtMap = map<nat, Prot>

  function Mprotect(p: ProtMap, r: Region, prot: Prot): (p': ProtMap)
    ensures p'.Keys == p.Keys
  {
    map x | x in p :: if Covers(r, x) then prot else p[x]
  }

  predicate Readable(p: ProtMap, x: nat) {
    x in p && p[x].read
  }

  predicate Writable(p: ProtMap, x: nat) {
    x in p && p[x].write
  }

  datatype VmaKind = Stack | Heap | Anon | File

  /** One private mapping of the target, as scan_target_vmas records it. */
  datatype Vma = Vma(start: nat, end: nat, prot: Prot, kind: VmaKind)

  predicate InVma(v: Vma, x: int) {
    v.start <= x < v.end
  }

  function Span(v: Vma): Region {
    Region(v.start, if v.end <= v.start then 0 else v.end - v.start)
  }
}

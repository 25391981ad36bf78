/** The system call between the user-level allocator and the kernel's memory. */
module Sbrk {
  import opened Vm
  import opened VmSpace
  import Umalloc

  datatype Result = Failed | At(addr: nat)

  /** sys_sbrk: growproc, then the old size, which is where the new memory starts. */
  method SysSbrk(k: Kernel, d: nat, sz: nat, n: int) returns (r: Result, size: nat)
    requires k.Valid() && d in k.dirs && sz < USER * PGSIZE && -0x8000_0000 <= n < 0x8000_0000
    requires SizeIs(k.Now(), d, sz)
    modifies k
    ensures k.Valid() && d in k.dirs
    ensures r.At? ==> r.addr == sz && SizeIs(k.Now(), d, size)
    ensures n > 0 ==>
      (r.At? <==> sz + n < USER * PGSIZE
                  && Growth(Tables(old(k.Now()), d), RoundUp(sz), RoundUp(sz + n)) <= |old(k.freelist)|)
    ensures n > 0 ==> size == if r.At? then sz + n else sz
    ensures n > 0 && r.At? ==> Grown(old(k.Now()), k.Now(), d, RoundUp(sz), RoundUp(sz + n), 0)
    ensures n > 0 && r == Failed ==> AllSame(old(k.Now()), k.Now())
    ensures n <= 0 ==> (r == Failed <==> n < 0 && (sz == 0 || sz + n == 0))
    ensures n <= 0 && r.At? ==> size == Umalloc.SizeAfter(sz, n)
    ensures n < 0 && sz > 0 && sz + n == 0 ==> SizeIs(k.Now(), d, 0) && size == sz
  {
    hide SizeIs, Ram.Inv, Listed, Tables, Growth, Grown, AllSame;
    var addr := sz;
    var ok;
    ok, size := k.Growproc(d, sz, n);
    if !ok {
      return Failed, size;
    }
    r := At(addr);
  }

  /** A count of at most 0, as malloc's sum can make it, ends as Umalloc.WrappedFate says: with every page
    * of the process gone, or with a store at the returned address to a page that is mapped or is not. */
  method WrappedCall(k: Kernel, d: nat, sz: nat, count: int) returns (r: Result, size: nat)
    requires k.Valid() && d in k.dirs && 0 < sz < USER * PGSIZE && -0x8000_0000 <= count <= 0
    requires SizeIs(k.Now(), d, sz)
    modifies k
    ensures k.Valid() && d in k.dirs
    ensures match Umalloc.WrappedFate(sz, count)
            case Emptied => r == Failed && forall x: nat :: x < USER ==> !Present(k.Now().Lookup(d, x))
            case Faults => r == At(sz) && !Present(k.Now().Lookup(d, sz / PGSIZE))
            case Planted => r == At(sz) && Present(k.Now().Lookup(d, sz / PGSIZE))
  {
    r, size := SysSbrk(k, d, sz, count);
    if r.At? {
      assert sz / PGSIZE < USER;
      assert SizedPage(k.Now(), d, size, sz / PGSIZE);
    } else {
      forall x: nat | x < USER ensures !Present(k.Now().Lookup(d, x)) {
        assert SizedPage(k.Now(), d, 0, x);
      }
    }
  }
}

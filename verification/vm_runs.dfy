/** A run of the allocator and the page tables from boot. */
module VmRuns {
  import opened Common
  import opened VmPages
  import opened VmCode
  import opened VmSpaces
  import opened VmCost
  import opened VmGrow
  import opened VmKernel

  /** Memory of n pages handed over at boot. */
  method BootPages(n: nat) returns (vm: Vm)
    requires 0 < n
    ensures fresh(vm) && Ok(vm.S()) && |vm.free| == n - 1 && vm.owner == map[] && vm.held == {}
  {
    vm := new Vm(1, seq(n, i => ZeroPage()));
    ghost var s := vm.S();
    assert FreeSet(s) == {} by { assert Total(s) == {}; }
    var panicked := vm.Freerange(4096, 4096 * n);
    ghost var first: nat, p: nat :| Handed(first, p, 4096, 4096 * n, panicked, vm.S()) && Given(s, vm.S(), first, p);
    BootCount(s, vm.S(), first, p, n, panicked);
  }

  lemma BootCount(s: Sys, t: Sys, first: nat, p: nat, n: nat, panicked: bool)
    requires Given(s, t, first, p) && Handed(first, p, 4096, 4096 * n, panicked, t) && FreeSet(s) == {} && 0 < n
    requires t.kend == 1 && |t.pages| == n
    ensures |t.free| == n - 1
  {
    RangeIff(s, t, first, p, 4096, 4096 * n, panicked);
    forall f: nat ensures f in FreeSet(t) <==> f in Range(1, n) {
      assert Within(f, 4096, 4096 * n) <==> 1 <= f < n;
      assert Lies(f, 1, n) <==> 1 <= f < n;
    }
    assert FreeSet(t) == Range(1, n);
    RangeSize(1, n);
    FreeSize(t);
  }

  /** With 67 free pages, setupkvm takes 65, and allocuvm of two pages takes one for the first page and one for its
      table before it fails: the table stays with the directory. */
  method TableStays(data: nat) returns (vm: Vm, d: nat, r: nat, ghost s: Sys)
    requires 0x100 < data < 0xE000
    ensures fresh(vm) && Ok(s) && s.IsDir(d) && r == 0 && SameMaps(s, vm.S())
    ensures FreeSet(vm.S()) != FreeSet(s)
  {
    vm := BootPages(68);
    var panicked;
    d, panicked := Setupkvm(vm, data);
    s := vm.S();
    NothingThere(s, d, data);
    r, panicked := Allocuvm(vm, d, 0, 8192);
  }

  /** Pages 0 and 1 of a fresh space are free, and take a table. */
  lemma NothingThere(s: Sys, d: nat, data: nat)
    requires d < |s.pages| && TableSet(s.pages[d]) == KernelTables() && |s.free| == 2
    requires forall p: nat, x: nat :: p < NENTRIES && x < NENTRIES ==> Lookup(s.pages, d, p, x) == KernelEntry(data, 1024 * p + x)
    ensures Up(0) == 0 && Up(8192) == 2 && Unmapped(s, d, 0, 2) && Need(s, d, 0, 2) > 2 && !NoTableMade(s, d, 0, 2)
  {
    PageEntry(0, 0, 2);
    assert !KernelTable(0) && 0 in NewTables(s.pages[d], 0, 2);
    assert 0 / 1024 !in TableSet(s.pages[d]);
  }
}

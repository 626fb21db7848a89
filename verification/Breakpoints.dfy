/** The software breakpoints of the debugger stub: a table of breakpoints, and the traps written over
    the program's memory while they are active. */
module Breakpoints {
  type Byte = bv8
  type Memory = map<int, Byte>

  datatype State = Undefined | Removed | Pending | Active

  /** An entry of gdb_break. */
  datatype Slot = Slot(state: State, addr: int, saved: seq<Byte>)

  /** What can be read and written at the moment; a copy stops at the first byte that cannot. */
  datatype Access = Access(readable: set<int>, writable: set<int>)

  predicate Within(a: int, addr: int, n: nat) {
    addr <= a < addr + n
  }

  /** How many of the n bytes at addr can be reached before the first that cannot. */
  function Reach(allowed: set<int>, addr: int, n: nat): (k: nat)
    ensures k <= n && (forall a :: Within(a, addr, k) ==> a in allowed) && (k < n ==> addr + k !in allowed)
    decreases n
  {
    if n == 0 || addr !in allowed then 0 else 1 + Reach(allowed, addr + 1, n - 1)
  }

  /** m with the bytes put at addr. */
  ghost function Overlay(m: Memory, addr: int, bytes: seq<Byte>): Memory {
    map a | a in m :: if Within(a, addr, |bytes|) then bytes[a - addr] else m[a]
  }

  ghost predicate Mapped(m: Memory, addr: int, n: nat) {
    forall a :: Within(a, addr, n) ==> a in m
  }

  /** The n bytes at addr. */
  ghost function Bytes(m: Memory, addr: int, n: nat): (b: seq<Byte>)
    requires Mapped(m, addr, n)
    ensures |b| == n
  {
    seq(n, i requires 0 <= i < n => assert Within(addr + i, addr, n); m[addr + i])
  }

  predicate Apart(x: int, y: int, n: nat) {
    x + n <= y || y + n <= x
  }

  /** The slot's address can be read and written in full. */
  predicate Accessible(access: Access, addr: int, n: nat) {
    Reach(access.readable, addr, n) == n && Reach(access.writable, addr, n) == n
  }

  /** A write there would fault half way. */
  predicate Torn(access: Access, addr: int, n: nat) {
    Reach(access.readable, addr, n) == n && 0 < Reach(access.writable, addr, n) < n
  }

  ghost predicate ArmedIn(m: Memory, original: Memory, s: Slot, trap: seq<Byte>) {
    && Mapped(original, s.addr, |trap|) && Mapped(m, s.addr, |trap|)
    && s.saved == Bytes(original, s.addr, |trap|) && Bytes(m, s.addr, |trap|) == trap
  }

  /** Writing elsewhere leaves an active breakpoint active. */
  lemma ArmedApart(m: Memory, original: Memory, s: Slot, trap: seq<Byte>, addr: int, bytes: seq<Byte>)
    requires ArmedIn(m, original, s, trap) && |bytes| == |trap| && Apart(s.addr, addr, |trap|)
    ensures ArmedIn(Overlay(m, addr, bytes), original, s, trap)
  {
    forall p | 0 <= p < |trap| ensures Overlay(m, addr, bytes)[s.addr + p] == trap[p] {
      assert Bytes(m, s.addr, |trap|)[p] == m[s.addr + p];
    }
    assert Bytes(Overlay(m, addr, bytes), s.addr, |trap|) == trap;
  }

  class Stub {
    const trap: seq<Byte>
    const breaks: array<Slot>
    var mem: Memory
    /** The program's memory without any trap. */
    ghost var original: Memory

    /** An active breakpoint shows the trap and has the original bytes saved. */
    ghost predicate Armed(s: Slot)
      reads this
    {
      ArmedIn(mem, original, s, trap)
    }

    /** No trap covers a. */
    ghost predicate Bare(a: int)
      reads this, breaks
    {
      forall i :: 0 <= i < breaks.Length && breaks[i].state == Active ==> !Within(a, breaks[i].addr, |trap|)
    }

    predicate Enabled(s: Slot) {
      s.state == Pending || s.state == Active
    }

    /** Memory is the original memory overlaid with traps at exactly the active breakpoints, which do
        not overlap. */
    ghost predicate Valid()
      reads this, breaks
    {
      && mem.Keys == original.Keys
      && (forall i :: 0 <= i < breaks.Length && breaks[i].state == Active ==> Armed(breaks[i]))
      && (forall a :: a in mem && Bare(a) ==> mem[a] == original[a])
      && (forall i, j :: 0 <= i < j < breaks.Length && Enabled(breaks[i]) && Enabled(breaks[j]) ==>
        Apart(breaks[i].addr, breaks[j].addr, |trap|))
    }

    constructor (trap: seq<Byte>, slots: nat, mem: Memory)
      ensures Valid() && this.trap == trap && this.mem == mem && original == mem && breaks.Length == slots
              && fresh(breaks)
      ensures forall i :: 0 <= i < slots ==> breaks[i].state == Undefined
    {
      this.trap, this.mem, original := trap, mem, mem;
      breaks := new Slot[slots](_ => Slot(Undefined, 0, []));
    }

    /** probe_kernel_write, out of memory. */
    method ProbeRead(addr: int, access: Access) returns (err: bool, bytes: seq<Byte>)
      requires access.readable <= mem.Keys
      ensures err <==> Reach(access.readable, addr, |trap|) < |trap|
      ensures !err ==> Mapped(mem, addr, |trap|) && bytes == Bytes(mem, addr, |trap|)
    {
      bytes := [];
      for i := 0 to |trap|
        invariant |bytes| == i && (forall k :: 0 <= k < i ==> addr + k in mem && bytes[k] == mem[addr + k])
        invariant Reach(access.readable, addr, |trap|) == i + Reach(access.readable, addr + i, |trap| - i)
      {
        if addr + i !in access.readable {
          return true, bytes;
        }
        bytes := bytes + [mem[addr + i]];
      }
      forall a | Within(a, addr, |trap|) ensures a in mem {
        assert addr + (a - addr) in mem;
      }
      err := false;
    }

    /** probe_kernel_write, into memory. */
    method ProbeWrite(addr: int, bytes: seq<Byte>, access: Access) returns (err: bool)
      requires access.writable <= mem.Keys
      modifies this`mem
      ensures err <==> Reach(access.writable, addr, |bytes|) < |bytes|
      ensures mem == Overlay(old(mem), addr, bytes[..Reach(access.writable, addr, |bytes|)])
    {
      for i := 0 to |bytes|
        invariant mem == Overlay(old(mem), addr, bytes[..i]) && mem.Keys == old(mem.Keys)
        invariant Reach(access.writable, addr, |bytes|) == i + Reach(access.writable, addr + i, |bytes| - i)
      {
        if addr + i !in access.writable {
          return true;
        }
        mem := mem[addr + i := bytes[i]];
      }
      err := false;
    }

    /** gdb_arch_set_breakpoint: save the instruction and write the trap. */
    method ArchSet(addr: int, access: Access) returns (err: bool, saved: seq<Byte>)
      requires access.readable <= mem.Keys && access.writable <= mem.Keys
      modifies this`mem
      ensures err <==> !Accessible(access, addr, |trap|)
      ensures mem == Overlay(old(mem), addr, trap[..Written(access, addr)])
      ensures Reach(access.readable, addr, |trap|) == |trap| ==>
        Mapped(old(mem), addr, |trap|) && saved == Bytes(old(mem), addr, |trap|)
    {
      err, saved := ProbeRead(addr, access);
      if err {
        OverlayNothing(mem, addr, trap[..0]);
        return;
      }
      err := ProbeWrite(addr, trap, access);
    }

    /** How many bytes of a trap get written at addr. */
    function Written(access: Access, addr: int): (k: nat)
      ensures k <= |trap|
    {
      if Reach(access.readable, addr, |trap|) < |trap| then 0 else Reach(access.writable, addr, |trap|)
    }

    /** gdb_validate_break_address: set the breakpoint and remove it. */
    method Validate(addr: int, access: Access) returns (err: bool)
      requires access.readable <= mem.Keys && access.writable <= mem.Keys
      modifies this`mem
      ensures err <==> !Accessible(access, addr, |trap|)
      ensures !Torn(access, addr, |trap|) ==> mem == old(mem)
      ensures Torn(access, addr, |trap|) ==> mem == Overlay(old(mem), addr, trap[..Written(access, addr)])
    {
      var saved;
      err, saved := ArchSet(addr, access);
      if err {
        OverlayNothing(old(mem), addr, trap[..0]);
        return;
      }
      ghost var was := old(mem);
      assert trap[..|trap|] == trap;
      err := ProbeWrite(addr, saved, access);
      assert saved[..|saved|] == saved;
      OverlayBack(was, addr, trap);
    }

    /** Everything enabled keeps clear of addr, or is a waiting breakpoint at that very address. */
    ghost predicate NoOverlap(addr: int)
      reads this, breaks
    {
      forall i :: 0 <= i < breaks.Length && Enabled(breaks[i]) ==>
        Apart(breaks[i].addr, addr, |trap|) || (breaks[i].state == Pending && breaks[i].addr == addr)
    }

    /** The first slot in that state, and at that address if one is given. */
    method FindSlot(state: State, addr: int, anywhere: bool) returns (k: int)
      ensures -1 <= k < breaks.Length
      ensures k >= 0 ==> breaks[k].state == state && (anywhere || breaks[k].addr == addr)
      ensures forall i :: 0 <= i < (if k < 0 then breaks.Length else k) ==>
        !(breaks[i].state == state && (anywhere || breaks[i].addr == addr))
    {
      for i := 0 to breaks.Length
        invariant forall j :: 0 <= j < i ==> !(breaks[j].state == state && (anywhere || breaks[j].addr == addr))
      {
        if breaks[i].state == state && (anywhere || breaks[i].addr == addr) {
          return i;
        }
      }
      k := -1;
    }

    ghost predicate HasSlot(state: State)
      reads this, breaks
    {
      exists i :: 0 <= i < breaks.Length && breaks[i].state == state
    }

    ghost predicate PendingAt(addr: int)
      reads this, breaks
    {
      exists i :: 0 <= i < breaks.Length && breaks[i].state == Pending && breaks[i].addr == addr
    }

    /** gdb_set_sw_break. */
    method SetBreak(addr: int, access: Access) returns (err: bool, ghost slot: int)
      requires Valid() && NoOverlap(addr) && access.readable <= mem.Keys && access.writable <= mem.Keys
      modifies this`mem, breaks
      ensures err <==> !Accessible(access, addr, |trap|) || old(PendingAt(addr))
                       || !(old(HasSlot(Removed)) || old(HasSlot(Undefined)))
      ensures !Torn(access, addr, |trap|) ==> Valid() && mem == old(mem)
      ensures err ==> breaks[..] == old(breaks[..])
      ensures !err ==> 0 <= slot < breaks.Length
      ensures !err ==> breaks[..] == old(breaks[..])[slot := Slot(Pending, addr, old(breaks[slot].saved))]
      ensures !err ==> old(breaks[slot].state) == if old(HasSlot(Removed)) then Removed else Undefined
    {
      slot := -1;
      err := Validate(addr, access);
      if err {
        return;
      }
      var duplicate := FindSlot(Pending, addr, false);
      if duplicate >= 0 {
        return true, -1;
      }
      var free := FindSlot(Removed, 0, true);
      if free == -1 {
        free := FindSlot(Undefined, 0, true);
      }
      if free == -1 {
        return true, -1;
      }
      slot := free;
      TakeSlot(free, addr);
    }

    /** A free slot becomes a waiting breakpoint. */
    method TakeSlot(k: int, addr: int)
      requires Valid() && NoOverlap(addr) && !PendingAt(addr) && 0 <= k < breaks.Length && !Enabled(breaks[k])
      modifies breaks
      ensures Valid() && breaks[..] == old(breaks[..])[k := Slot(Pending, addr, old(breaks[k].saved))]
    {
      breaks[k] := Slot(Pending, addr, breaks[k].saved);
      forall a | a in mem && Bare(a) ensures mem[a] == original[a] {
        assert forall i :: 0 <= i < breaks.Length && old(breaks[i].state) == Active ==> breaks[i] == old(breaks[i]);
        assert old(Bare(a));
      }
    }

    /** gdb_remove_sw_break. */
    method RemoveBreak(addr: int) returns (err: bool)
      requires Valid()
      modifies breaks
      ensures Valid() && mem == old(mem)
      ensures err <==> !old(PendingAt(addr))
      ensures err ==> breaks[..] == old(breaks[..])
      ensures !err ==>
        exists k :: 0 <= k < breaks.Length && old(breaks[k].state) == Pending && old(breaks[k].addr) == addr &&
                    breaks[..] == old(breaks[..])[k := old(breaks[k]).(state := Removed)]
    {
      var k := FindSlot(Pending, addr, false);
      if k < 0 {
        return true;
      }
      breaks[k] := breaks[k].(state := Removed);
      forall a | a in mem && Bare(a) ensures mem[a] == original[a] {
        assert forall i :: 0 <= i < breaks.Length && old(breaks[i].state) == Active ==> breaks[i] == old(breaks[i]);
        assert old(Bare(a));
      }
      err := false;
    }

    // ---- Activation ------------------------------------------------------------------------

    /** One waiting breakpoint becomes active. */
    method Arm(k: int, access: Access) returns (err: bool)
      requires Valid() && 0 <= k < breaks.Length && breaks[k].state == Pending
      requires access.readable <= mem.Keys && access.writable <= mem.Keys
      modifies this`mem, breaks
      ensures err <==> !Accessible(access, old(breaks[k].addr), |trap|)
      ensures !Torn(access, old(breaks[k].addr), |trap|) ==> Valid()
      ensures mem.Keys == old(mem.Keys)
              && (forall i :: 0 <= i < breaks.Length && i != k ==> breaks[i] == old(breaks[i]))
      ensures breaks[k].addr == old(breaks[k].addr) && breaks[k].state == if err then Pending else Active
    {
      var s := breaks[k];
      ghost var m := mem;
      forall a | Within(a, s.addr, |trap|) ensures Bare(a) {
      }
      var saved;
      err, saved := ArchSet(s.addr, access);
      breaks[k] := Slot(if err then Pending else Active, s.addr, saved);
      assert forall i :: 0 <= i < breaks.Length && i != k ==> breaks[i] == old(breaks[i]);
      if err {
        OverlayNothing(m, s.addr, trap[..0]);
        forall a | a in m && Bare(a) ensures m[a] == original[a] {
          assert old(Bare(a));
        }
      } else {
        assert trap[..|trap|] == trap;
        assert saved == Bytes(original, s.addr, |trap|);
        forall a | a in m && Bare(a) ensures m[a] == original[a] {
          assert !Within(a, s.addr, |trap|);
          assert old(Bare(a));
        }
        Rearmed(m, k);
      }
    }

    /** One active breakpoint is taken off again. */
    method Disarm(k: int, access: Access) returns (err: bool)
      requires Valid() && 0 <= k < breaks.Length && breaks[k].state == Active && access.writable <= mem.Keys
      modifies this`mem, breaks
      ensures err <==> Reach(access.writable, old(breaks[k].addr), |trap|) < |trap|
      ensures !err || Reach(access.writable, old(breaks[k].addr), |trap|) == 0 ==> Valid()
      ensures mem.Keys == old(mem.Keys)
              && (forall i :: 0 <= i < breaks.Length && i != k ==> breaks[i] == old(breaks[i]))
      ensures breaks[k] == if err then old(breaks[k]) else old(breaks[k]).(state := Pending)
    {
      var s := breaks[k];
      ghost var m := mem;
      err := ProbeWrite(s.addr, s.saved, access);
      if err {
        OverlayNothing(m, s.addr, s.saved[..0]);
        return;
      }
      assert s.saved[..|s.saved|] == s.saved;
      breaks[k] := s.(state := Pending);
      assert forall i :: 0 <= i < breaks.Length && i != k ==> breaks[i] == old(breaks[i]);
      forall a | a in m && Bare(a) && !Within(a, s.addr, |trap|) ensures m[a] == original[a] {
        assert old(Bare(a));
      }
      Disarmed(m, s, k);
    }

    /** Memory after a trap has been written over a breakpoint's bytes. */
    lemma Rearmed(m: Memory, k: int)
      requires 0 <= k < breaks.Length && breaks[k].state == Active
      requires mem == Overlay(m, breaks[k].addr, trap) && m.Keys == original.Keys && Mapped(m, breaks[k].addr, |trap|)
      requires Mapped(original, breaks[k].addr, |trap|) && breaks[k].saved == Bytes(original, breaks[k].addr, |trap|)
      requires forall i :: 0 <= i < breaks.Length && i != k && breaks[i].state == Active ==>
        ArmedIn(m, original, breaks[i], trap)
      requires forall a :: a in m && Bare(a) ==> m[a] == original[a]
      requires forall i, j :: 0 <= i < j < breaks.Length && Enabled(breaks[i]) && Enabled(breaks[j]) ==>
        Apart(breaks[i].addr, breaks[j].addr, |trap|)
      ensures Valid()
    {
      assert Bytes(mem, breaks[k].addr, |trap|) == trap;
      forall i | 0 <= i < breaks.Length && breaks[i].state == Active && i != k ensures Armed(breaks[i]) {
        ArmedApart(m, original, breaks[i], trap, breaks[k].addr, trap);
      }
    }

    /** Memory after the saved bytes have been put back. */
    lemma Disarmed(m: Memory, s: Slot, k: int)
      requires 0 <= k < breaks.Length && breaks[k].state == Pending && breaks[k].addr == s.addr
      requires mem == Overlay(m, s.addr, s.saved) && m.Keys == original.Keys && |s.saved| == |trap|
      requires Mapped(original, s.addr, |trap|) && s.saved == Bytes(original, s.addr, |trap|)
      requires forall i :: 0 <= i < breaks.Length && breaks[i].state == Active ==> ArmedIn(m, original, breaks[i], trap)
      requires forall a :: a in m && Bare(a) && !Within(a, s.addr, |trap|) ==> m[a] == original[a]
      requires forall i, j :: 0 <= i < j < breaks.Length && Enabled(breaks[i]) && Enabled(breaks[j]) ==>
        Apart(breaks[i].addr, breaks[j].addr, |trap|)
      ensures Valid()
    {
      forall i | 0 <= i < breaks.Length && breaks[i].state == Active ensures Armed(breaks[i]) {
        ArmedApart(m, original, breaks[i], trap, s.addr, s.saved);
      }
    }

    /** gdb_activate_sw_breakpoints: it stops at the first breakpoint that faults, `at`, leaving the
        earlier ones active and memory showing exactly those, unless that write was torn. */
    method Activate(access: Access) returns (err: bool, at: nat)
      requires Valid() && access.readable <= mem.Keys && access.writable <= mem.Keys
      modifies this`mem, breaks
      ensures at <= breaks.Length && (err <==> at < breaks.Length)
      ensures err ==> old(breaks[at].state) == Pending && !Accessible(access, breaks[at].addr, |trap|)
      ensures Valid() || (err && Torn(access, breaks[at].addr, |trap|))
      ensures forall i :: 0 <= i < breaks.Length ==>
                breaks[i].addr == old(breaks[i].addr)
                && breaks[i].state == if i < at && old(breaks[i].state) == Pending then Active else old(breaks[i].state)
      ensures forall i :: 0 <= i < at && old(breaks[i].state) == Pending ==> Accessible(access, breaks[i].addr, |trap|)
    {
      at := 0;
      while at < breaks.Length
        invariant at <= breaks.Length && Valid() && mem.Keys == old(mem.Keys)
        invariant forall i :: at <= i < breaks.Length ==> breaks[i] == old(breaks[i])
        invariant forall i :: 0 <= i < at ==>
                    breaks[i].addr == old(breaks[i].addr)
                    && breaks[i].state == if old(breaks[i].state) == Pending then Active else old(breaks[i].state)
        invariant forall i :: 0 <= i < at && old(breaks[i].state) == Pending ==>
          Accessible(access, breaks[i].addr, |trap|)
      {
        if breaks[at].state == Pending {
          err := Arm(at, access);
          if err {
            return;
          }
        }
        at := at + 1;
      }
      err := false;
    }

    /** gdb_deactivate_sw_breakpoints: with no fault the program's memory is back as it was. */
    method Deactivate(access: Access) returns (err: bool, at: nat)
      requires Valid() && access.writable <= mem.Keys
      modifies this`mem, breaks
      ensures at <= breaks.Length && (err <==> at < breaks.Length)
      ensures err ==> old(breaks[at].state) == Active && Reach(access.writable, breaks[at].addr, |trap|) < |trap|
      ensures Valid() || (err && Reach(access.writable, breaks[at].addr, |trap|) > 0)
      ensures forall i :: 0 <= i < breaks.Length ==>
                breaks[i] == old(breaks[i]).(state := if i < at && old(breaks[i].state) == Active then Pending
                  else old(breaks[i].state))
      ensures forall i :: 0 <= i < at && old(breaks[i].state) == Active ==>
        Reach(access.writable, breaks[i].addr, |trap|) == |trap|
      ensures !err ==> mem == original
    {
      at := 0;
      while at < breaks.Length
        invariant at <= breaks.Length && Valid() && mem.Keys == old(mem.Keys)
        invariant forall i :: at <= i < breaks.Length ==> breaks[i] == old(breaks[i])
        invariant forall i :: 0 <= i < at ==>
                    breaks[i] == old(breaks[i]).(state := if old(breaks[i].state) == Active then Pending
                      else old(breaks[i].state))
        invariant forall i :: 0 <= i < at && old(breaks[i].state) == Active ==>
          Reach(access.writable, breaks[i].addr, |trap|) == |trap|
      {
        if breaks[at].state == Active {
          err := Disarm(at, access);
          if err {
            return;
          }
        }
        at := at + 1;
      }
      err := false;
      forall a | a in mem ensures mem[a] == original[a] {
        assert Bare(a);
      }
    }

    /** remove_all_break: every slot is given up, faults or not; memory is the program's own again
        exactly when every byte that could not be written back equals the trap's. */
    method RemoveAll(access: Access)
      requires Valid() && access.writable <= mem.Keys
      modifies this`mem, breaks
      ensures Freed(old(breaks[..]), breaks[..], breaks.Length)
      ensures Cleared(old(breaks[..]), mem, original, access, breaks.Length, trap)
      ensures mem == original <==> AllAlike(old(breaks[..]), access, trap)
    {
      ghost var slots := breaks[..];
      ClearedAtFirst(access);
      var i := 0;
      while i < breaks.Length
        invariant i <= breaks.Length && slots == old(breaks[..]) && mem.Keys == old(mem.Keys)
        invariant Cleared(slots, mem, original, access, i, trap)
        invariant Freed(slots, breaks[..], i)
      {
        ghost var m := mem;
        assert breaks[..][i] == slots[i];
        Release(i, access);
        ClearedNext(slots, m, mem, original, access, i, trap);
        i := i + 1;
      }
      ClearedWhen(slots, mem, original, access, trap);
    }

    /** One slot is given up; a failed write is only reported. */
    method Release(k: nat, access: Access)
      requires k < breaks.Length && access.writable <= mem.Keys
      modifies this`mem, breaks
      ensures breaks[..] == old(breaks[..])[k := old(breaks[k]).(state := Undefined)] && mem.Keys == old(mem.Keys)
      ensures old(breaks[k].state) != Active ==> mem == old(mem)
      ensures old(breaks[k].state) == Active ==>
                mem == Overlay(old(mem), breaks[k].addr,
                  breaks[k].saved[..Reach(access.writable, breaks[k].addr, |breaks[k].saved|)])
    {
      if breaks[k].state == Active {
        var err := ProbeWrite(breaks[k].addr, breaks[k].saved, access);
      }
      breaks[k] := breaks[k].(state := Undefined);
    }

    lemma ClearedAtFirst(access: Access)
      requires Valid()
      ensures Cleared(breaks[..], mem, original, access, 0, trap)
    {
      var slots := breaks[..];
      forall j: nat | j < |slots| ensures ShowsAt(slots, mem, original, access, 0, trap, j) {
        if slots[j].state == Active {
          forall a | Within(a, slots[j].addr, |trap|) ensures mem[a] == trap[a - slots[j].addr] {
            assert Bytes(mem, slots[j].addr, |trap|)[a - slots[j].addr] == mem[a];
          }
        }
      }
      forall a | a in mem && Clear(slots, |trap|, a) ensures mem[a] == original[a] {
        assert forall j :: 0 <= j < |slots| ==> slots[j] == breaks[j];
        assert Bare(a);
      }
    }

    /** gdb_isremovedbreak. */
    method IsRemoved(addr: int) returns (removed: bool)
      ensures removed <==> exists i :: 0 <= i < breaks.Length && breaks[i].state == Removed && breaks[i].addr == addr
    {
      var k := FindSlot(Removed, addr, false);
      removed := k >= 0;
    }
  }

  lemma OverlayNothing(m: Memory, addr: int, none: seq<Byte>)
    requires none == []
    ensures Overlay(m, addr, none) == m
  {
  }

  /** Writing back what was saved undoes the trap. */
  lemma OverlayBack(m: Memory, addr: int, trap: seq<Byte>)
    requires Mapped(m, addr, |trap|)
    ensures Overlay(Overlay(m, addr, trap), addr, Bytes(m, addr, |trap|)) == m
  {
    var saved := Bytes(m, addr, |trap|);
    forall a | Within(a, addr, |trap|) ensures a in m && saved[a - addr] == m[a] {
    }
  }

  // ---- Removing every breakpoint -------------------------------------------------------------

  /** The first w bytes at the slot's address are the saved ones and the rest are the trap's. */
  ghost predicate Shows(m: Memory, original: Memory, s: Slot, w: nat, trap: seq<Byte>) {
    && Mapped(m, s.addr, |trap|) && Mapped(original, s.addr, |trap|) && s.saved == Bytes(original, s.addr, |trap|)
    && (forall a :: Within(a, s.addr, |trap|) ==> m[a] == if a < s.addr + w then original[a] else trap[a - s.addr])
  }

  ghost predicate ShowsAt(slots: seq<Slot>, m: Memory, original: Memory, access: Access, i: nat,
          trap: seq<Byte>, j: nat)
    requires j < |slots|
  {
    slots[j].state == Active ==>
      Shows(m, original, slots[j], if j < i then Reach(access.writable, slots[j].addr, |trap|) else 0, trap)
  }

  /** No trap covers a. */
  ghost predicate Clear(slots: seq<Slot>, n: nat, a: int) {
    forall j :: 0 <= j < |slots| && slots[j].state == Active ==> !Within(a, slots[j].addr, n)
  }

  /** Active breakpoints do not overlap. */
  ghost predicate Disjoint(slots: seq<Slot>, n: nat) {
    forall j, k :: 0 <= j < k < |slots| && slots[j].state == Active && slots[k].state == Active ==>
      Apart(slots[j].addr, slots[k].addr, n)
  }

  /** The first i of the slots have been gone through. */
  ghost predicate Cleared(slots: seq<Slot>, m: Memory, original: Memory, access: Access, i: nat, trap: seq<Byte>) {
    && m.Keys == original.Keys && Disjoint(slots, |trap|)
    && (forall a {:trigger Clear(slots, |trap|, a)} :: a in m && Clear(slots, |trap|, a) ==> m[a] == original[a])
    && (forall j {:trigger ShowsAt(slots, m, original, access, i, trap, j)} :: 0 <= j < |slots| ==>
      ShowsAt(slots, m, original, access, i, trap, j))
  }

  /** The trap's bytes that stay behind are the instruction's own. */
  predicate Alike(s: Slot, access: Access, trap: seq<Byte>) {
    |s.saved| == |trap| && forall p :: Reach(access.writable, s.addr, |trap|) <= p < |trap| ==> s.saved[p] == trap[p]
  }

  ghost predicate AllAlike(slots: seq<Slot>, access: Access, trap: seq<Byte>) {
    forall i :: 0 <= i < |slots| && slots[i].state == Active ==> Alike(slots[i], access, trap)
  }

  /** The first i of the slots have become free. */
  ghost predicate Freed(slots: seq<Slot>, now: seq<Slot>, i: nat) {
    && |now| == |slots|
    && (forall j :: 0 <= j < |slots| ==> now[j] == if j < i then slots[j].(state := Undefined) else slots[j])
  }

  lemma ClearedNext(slots: seq<Slot>, m: Memory, m': Memory, original: Memory, access: Access, i: nat, trap: seq<Byte>)
    requires Cleared(slots, m, original, access, i, trap) && i < |slots|
    requires slots[i].state == Active ==>
      m' == Overlay(m, slots[i].addr, slots[i].saved[..Reach(access.writable, slots[i].addr, |slots[i].saved|)])
    requires slots[i].state != Active ==> m' == m
    ensures Cleared(slots, m', original, access, i + 1, trap)
  {
    assert ShowsAt(slots, m, original, access, i, trap, i);
    var next := i + 1;
    forall j: nat | j < |slots| ensures ShowsAt(slots, m', original, access, next, trap, j) {
      assert ShowsAt(slots, m, original, access, i, trap, j);
      ShowsNext(slots, m, m', original, access, i, trap, j);
    }
    forall a | a in m' && Clear(slots, |trap|, a) ensures m'[a] == original[a] {
    }
  }

  lemma ShowsNext(slots: seq<Slot>, m: Memory, m': Memory, original: Memory, access: Access, i: nat,
          trap: seq<Byte>, j: nat)
    requires i < |slots| && j < |slots| && Disjoint(slots, |trap|)
    requires ShowsAt(slots, m, original, access, i, trap, i) && ShowsAt(slots, m, original, access, i, trap, j)
    requires slots[i].state == Active ==>
      m' == Overlay(m, slots[i].addr, slots[i].saved[..Reach(access.writable, slots[i].addr, |slots[i].saved|)])
    requires slots[i].state != Active ==> m' == m
    ensures ShowsAt(slots, m', original, access, i + 1, trap, j)
  {
    if slots[i].state == Active && slots[j].state == Active && i != j {
      assert Apart(slots[j].addr, slots[i].addr, |trap|);
    }
  }

  lemma AlikeIfRestored(slots: seq<Slot>, m: Memory, original: Memory, access: Access, trap: seq<Byte>, i: nat)
    requires i < |slots| && slots[i].state == Active && ShowsAt(slots, m, original, access, |slots|, trap, i)
             && m == original
    ensures Alike(slots[i], access, trap)
  {
    forall p | Reach(access.writable, slots[i].addr, |trap|) <= p < |trap| ensures slots[i].saved[p] == trap[p] {
      assert Within(slots[i].addr + p, slots[i].addr, |trap|);
    }
  }

  lemma RestoredAt(slots: seq<Slot>, m: Memory, original: Memory, access: Access, trap: seq<Byte>, i: nat, a: int)
    requires i < |slots| && slots[i].state == Active && ShowsAt(slots, m, original, access, |slots|, trap, i)
    requires Alike(slots[i], access, trap) && Within(a, slots[i].addr, |trap|)
    ensures m[a] == original[a]
  {
    assert slots[i].saved[a - slots[i].addr] == original[a];
  }

  lemma ClearedWhen(slots: seq<Slot>, m: Memory, original: Memory, access: Access, trap: seq<Byte>)
    requires Cleared(slots, m, original, access, |slots|, trap)
    ensures m == original <==> AllAlike(slots, access, trap)
  {
    if m == original {
      forall i | 0 <= i < |slots| && slots[i].state == Active ensures Alike(slots[i], access, trap) {
        AlikeIfRestored(slots, m, original, access, trap, i);
      }
    }
    if AllAlike(slots, access, trap) {
      forall a | a in m ensures m[a] == original[a] {
        if !Clear(slots, |trap|, a) {
          var i :| 0 <= i < |slots| && slots[i].state == Active && Within(a, slots[i].addr, |trap|);
          RestoredAt(slots, m, original, access, trap, i, a);
        }
      }
    }
  }

  // ---- Overlapping breakpoints ---------------------------------------------------------------

  /** Memory after a trap has been written at each of the first k addresses, one after the other. */
  ghost function Trapped(m: Memory, at: seq<int>, trap: seq<Byte>, k: nat): (r: Memory)
    requires k <= |at|
    ensures r.Keys == m.Keys
  {
    if k == 0 then m else Overlay(Trapped(m, at, trap, k - 1), at[k - 1], trap)
  }

  ghost predicate AllMapped(m: Memory, at: seq<int>, n: nat) {
    forall i :: 0 <= i < |at| ==> Mapped(m, at[i], n)
  }

  /** What was saved before trap number i was written. */
  ghost function Saved(m: Memory, at: seq<int>, trap: seq<Byte>, i: nat): seq<Byte>
    requires i < |at| && AllMapped(m, at, |trap|)
  {
    Bytes(Trapped(m, at, trap, i), at[i], |trap|)
  }

  /** Memory after the first k of them have been put back, in the same order. */
  ghost function PutBack(m: Memory, at: seq<int>, trap: seq<Byte>, k: nat): (r: Memory)
    requires k <= |at| && AllMapped(m, at, |trap|)
    ensures r.Keys == m.Keys
  {
    if k == 0 then Trapped(m, at, trap, |at|)
      else Overlay(PutBack(m, at, trap, k - 1), at[k - 1], Saved(m, at, trap, k - 1))
  }

  /** The last of the first k traps that covers a, or -1. */
  function LastOver(at: seq<int>, n: nat, k: nat, a: int): (i: int)
    requires k <= |at|
    ensures -1 <= i < k && (i >= 0 ==> Within(a, at[i], n))
    ensures forall j :: i < j < k ==> !Within(a, at[j], n)
  {
    if k == 0 then -1 else if Within(a, at[k - 1], n) then k - 1 else LastOver(at, n, k - 1, a)
  }

  lemma {:induction false} TrappedAt(m: Memory, at: seq<int>, trap: seq<Byte>, k: nat, a: int)
    requires k <= |at| && a in m
    ensures var i := LastOver(at, |trap|, k, a);
            Trapped(m, at, trap, k)[a] == if i < 0 then m[a] else trap[a - at[i]]
  {
    if k > 0 {
      TrappedAt(m, at, trap, k - 1, a);
    }
  }

  lemma {:induction false} PutBackAt(m: Memory, at: seq<int>, trap: seq<Byte>, k: nat, a: int)
    requires k <= |at| && AllMapped(m, at, |trap|) && a in m
    ensures var i := LastOver(at, |trap|, k, a);
            PutBack(m, at, trap, k)[a] == if i < 0 then Trapped(m, at, trap, |at|)[a] else Trapped(m, at, trap, i)[a]
  {
    if k > 0 {
      PutBackAt(m, at, trap, k - 1, a);
      PutBackStep(m, at, trap, k, a);
    }
  }

  lemma PutBackStep(m: Memory, at: seq<int>, trap: seq<Byte>, k: nat, a: int)
    requires 0 < k <= |at| && AllMapped(m, at, |trap|) && a in m
    ensures PutBack(m, at, trap, k)[a]
            == if Within(a, at[k - 1], |trap|) then Trapped(m, at, trap, k - 1)[a] else PutBack(m, at, trap, k - 1)[a]
  {
    var saved := Saved(m, at, trap, k - 1);
    assert Mapped(Trapped(m, at, trap, k - 1), at[k - 1], |trap|);
    assert Within(a, at[k - 1], |trap|) ==> saved[a - at[k - 1]] == Trapped(m, at, trap, k - 1)[a];
    assert PutBack(m, at, trap, k) == Overlay(PutBack(m, at, trap, k - 1), at[k - 1], saved);
  }

  /** The trap below the topmost one at a shows the program's own byte there, or there is none. */
  ghost predicate Harmless(m: Memory, at: seq<int>, trap: seq<Byte>, a: int)
    requires a in m
  {
    var top := LastOver(at, |trap|, |at|, a);
    top < 0 || var below := LastOver(at, |trap|, top, a); below < 0 || trap[a - at[below]] == m[a]
  }

  /** Traps written in order and taken off in the same order, as the stub does it, restore the memory
      exactly when no byte that two of them cover keeps a trap's byte in place of its own. */
  lemma RestoredExactly(m: Memory, at: seq<int>, trap: seq<Byte>)
    requires AllMapped(m, at, |trap|)
    ensures PutBack(m, at, trap, |at|) == m <==> forall a :: a in m ==> Harmless(m, at, trap, a)
  {
    forall a | a in m ensures PutBack(m, at, trap, |at|)[a] == m[a] <==> Harmless(m, at, trap, a) {
      PutBackAt(m, at, trap, |at|, a);
      var top := LastOver(at, |trap|, |at|, a);
      TrappedAt(m, at, trap, if top < 0 then |at| else top, a);
    }
    if PutBack(m, at, trap, |at|) == m {
      forall a | a in m ensures Harmless(m, at, trap, a) {
        assert PutBack(m, at, trap, |at|)[a] == m[a];
      }
    }
  }

  /** Breakpoints that do not overlap are always undone. */
  lemma RestoredWhenApart(m: Memory, at: seq<int>, trap: seq<Byte>)
    requires AllMapped(m, at, |trap|) && forall i, j :: 0 <= i < j < |at| ==> Apart(at[i], at[j], |trap|)
    ensures PutBack(m, at, trap, |at|) == m
  {
    forall a | a in m ensures Harmless(m, at, trap, a) {
      var top := LastOver(at, |trap|, |at|, a);
      if top >= 0 {
        var below := LastOver(at, |trap|, top, a);
        assert below >= 0 ==> Apart(at[below], at[top], |trap|);
      }
    }
    RestoredExactly(m, at, trap);
  }
}

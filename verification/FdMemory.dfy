/** Memory backed by a file descriptor: the counted mapping of a root memory, used through it and through its shares. */
module FdMemories {
  import opened Basics

  datatype Prot = Prot(read: bool, write: bool)

  const NO_ACCESS := Prot(false, false)

  function Join(a: Prot, b: Prot): Prot { Prot(a.read || b.read, a.write || b.write) }

  predicate Covers(a: Prot, b: Prot) { (b.read ==> a.read) && (b.write ==> a.write) }

  /** Calls into the system that succeeded. */
  datatype Call = Mmap(addr: nat, length: nat, prot: Prot) | Mprotect(addr: nat, length: nat, prot: Prot)
                | Munmap(addr: nat, length: nat)

  /** What the system answers: where it would map, and whether it would change a protection. */
  datatype Answer = Answer(mmap: Option<nat>, mprotect: bool)

  /** A root memory; `calls` is history. */
  datatype RootView = RootView(keepMapped: bool, fd: int, maxsize: nat, data: Option<nat>, prot: Prot, count: int,
                               calls: seq<Call>)

  datatype Mapped = Mapped(root: RootView, address: Option<nat>)

  function MapRoot(m: RootView, request: Prot, answer: Answer): Mapped {
    match m.data
    case Some(addr) =>
      if Covers(m.prot, request) then Mapped(m.(count := m.count + 1), m.data)
      else if !answer.mprotect then Mapped(m, None)
      else
        var prot := Join(m.prot, request);
        Mapped(m.(prot := prot, count := m.count + 1, calls := m.calls + [Mprotect(addr, m.maxsize, prot)]), m.data)
    case None =>
      if m.fd == -1 || answer.mmap == None then Mapped(m, None)
      else
        var addr := answer.mmap.value;
        Mapped(m.(data := Some(addr), prot := request, count := m.count + 1,
                  calls := m.calls + [Mmap(addr, m.maxsize, request)]), Some(addr))
  }

  function UnmapRoot(m: RootView): RootView {
    if m.keepMapped || m.data == None then m
    else if m.count - 1 != 0 then m.(count := m.count - 1)
    else m.(data := None, prot := NO_ACCESS, count := 0, calls := m.calls + [Munmap(m.data.value, m.maxsize)])
  }

  function FreeRoot(m: RootView): RootView {
    if m.data == None then m
    else m.(data := None, calls := m.calls + [Munmap(m.data.value, m.maxsize)])
  }

  function NewRoot(fd: int, size: nat, keepMapped: bool): RootView {
    RootView(keepMapped, fd, size, None, NO_ACCESS, 0, [])
  }

  // ---- The system's side ----

  /** The mapping the system holds after some calls; `Wrong` if one of them did not fit what was mapped. */
  datatype Held = Nothing | At(addr: nat, length: nat, prot: Prot) | Wrong

  function Replay(calls: seq<Call>): Held {
    if calls == [] then Nothing
    else
      var before := Replay(calls[..|calls| - 1]);
      match calls[|calls| - 1]
      case Mmap(addr, length, prot) => if before == Nothing then At(addr, length, prot) else Wrong
      case Mprotect(addr, length, prot) =>
        if before.At? && before.addr == addr && before.length == length then At(addr, length, prot) else Wrong
      case Munmap(addr, length) =>
        if before.At? && before.addr == addr && before.length == length then Nothing else Wrong
  }

  lemma ReplayMore(calls: seq<Call>, call: Call)
    ensures (calls + [call])[..|calls|] == calls
  {
  }

  // ---- Runs ----

  /** A mapping handed out and not given back yet. */
  datatype Grant = Grant(addr: nat, request: Prot)

  /** A caller maps, through the root or any share, or gives back the `k`-th of the mappings handed out. */
  datatype Use = MapUse(request: Prot, answer: Answer) | UnmapUse(k: nat)

  datatype Users = Users(root: RootView, grants: seq<Grant>)

  function UseStep(u: Users, use: Use): Users {
    match use
    case MapUse(request, answer) =>
      var m := MapRoot(u.root, request, answer);
      Users(m.root, if m.address == None then u.grants else u.grants + [Grant(m.address.value, request)])
    case UnmapUse(k) =>
      if k < |u.grants| then Users(UnmapRoot(u.root), u.grants[..k] + u.grants[k + 1..]) else u
  }

  function UseRun(u: Users, uses: seq<Use>): Users
    decreases |uses|
  {
    if uses == [] then u else UseRun(UseStep(u, uses[0]), uses[1..])
  }

  /** The system's mapping is the memory's; every mapping handed out is at its address and covered by its protection;
      unless it is to stay mapped, a memory is mapped exactly while mappings are out, and counts them. */
  ghost predicate Consistent(u: Users) {
    var m := u.root;
    && Replay(m.calls) == (if m.data == None then Nothing else At(m.data.value, m.maxsize, m.prot))
    && (forall g :: g in u.grants ==> m.data == Some(g.addr) && Covers(m.prot, g.request))
    && (!m.keepMapped ==> m.count == |u.grants| && (m.data != None <==> u.grants != []))
    && (m.keepMapped ==> m.count >= |u.grants|)
  }

  lemma MapConsistent(u: Users, request: Prot, answer: Answer)
    requires Consistent(u)
    ensures Consistent(UseStep(u, MapUse(request, answer)))
  {
    var r := UseStep(u, MapUse(request, answer));
    if |r.root.calls| > |u.root.calls| {
      ReplayMore(u.root.calls, r.root.calls[|u.root.calls|]);
    }
  }

  lemma UnmapConsistent(u: Users, k: nat)
    requires Consistent(u) && k < |u.grants|
    ensures Consistent(UseStep(u, UnmapUse(k)))
  {
    var r := UseStep(u, UnmapUse(k));
    assert u.grants[k] in u.grants;
    assert forall g :: g in r.grants ==> g in u.grants;
    if |r.root.calls| > |u.root.calls| {
      ReplayMore(u.root.calls, r.root.calls[|u.root.calls|]);
    }
  }

  /** A map is refused exactly if the memory is not mapped and cannot be, or if its protection has to be widened and
      cannot be; a refused map changes nothing. */
  lemma MapGrantedIff(m: RootView, request: Prot, answer: Answer)
    ensures var r := MapRoot(m, request, answer);
            && (r.address == None <==> if m.data == None then m.fd == -1 || answer.mmap == None
                                       else !Covers(m.prot, request) && !answer.mprotect)
            && (r.address == None ==> r.root == m)
  {
  }

  /** A granted map is at the address already mapped, if there is one, and counted; the protection is what is asked for
      and what there was, and the system is called only to map, or to widen the protection. */
  lemma GrantedMap(m: RootView, request: Prot, answer: Answer)
    requires MapRoot(m, request, answer).address != None
    ensures var r := MapRoot(m, request, answer);
            var addr := if m.data == None then answer.mmap else m.data;
            var prot := if m.data == None then request else Join(m.prot, request);
            && r.address == addr && addr != None
            && r.root == m.(data := addr, prot := prot, count := m.count + 1, calls := r.root.calls)
            && r.root.calls == m.calls + (if m.data == None then [Mmap(addr.value, m.maxsize, prot)]
                                          else if prot == m.prot then []
                                          else [Mprotect(addr.value, m.maxsize, prot)])
  {
  }

  /** An unmap counts down, and ends the mapping with the last one; a memory that is to stay mapped, or is not mapped,
      is left alone. */
  lemma UnmapDecides(m: RootView)
    ensures var r := UnmapRoot(m);
            && (m.keepMapped || m.data == None ==> r == m)
            && (!m.keepMapped && m.data != None && m.count == 1 ==>
                  && r.data == None && r.count == 0 && r.prot == NO_ACCESS
                  && r.calls == m.calls + [Munmap(m.data.value, m.maxsize)])
            && (!m.keepMapped && m.data != None && m.count != 1 ==> r == m.(count := m.count - 1))
  {
  }

  /** While a mapping is out, another request that it covers is granted at the same address, whatever the system
      answers, and without asking it. */
  lemma CoveredMapIsGranted(u: Users, g: Grant, request: Prot, answer: Answer)
    requires Consistent(u) && g in u.grants && Covers(g.request, request)
    ensures var r := UseStep(u, MapUse(request, answer));
            r.grants == u.grants + [Grant(g.addr, request)] && r.root.calls == u.root.calls
  {
  }

  /** A memory that is to stay mapped does, at one address, whatever is mapped and unmapped. */
  lemma {:induction false} KeptMapped(u: Users, uses: seq<Use>)
    requires u.root.keepMapped && u.root.data != None
    ensures UseRun(u, uses).root.data == u.root.data
    decreases |uses|
  {
    if uses != [] {
      KeptMapped(UseStep(u, uses[0]), uses[1..]);
    }
  }

  lemma UseStepConsistent(u: Users, use: Use)
    requires Consistent(u)
    ensures Consistent(UseStep(u, use))
  {
    match use
    case MapUse(request, answer) => MapConsistent(u, request, answer);
    case UnmapUse(k) =>
      if k < |u.grants| {
        UnmapConsistent(u, k);
      }
  }

  /** Over every run of maps and balanced unmaps, through the root or its shares. */
  lemma {:induction false} UseRunConsistent(u: Users, uses: seq<Use>)
    requires Consistent(u)
    ensures Consistent(UseRun(u, uses))
    ensures UseRun(u, uses).root.keepMapped == u.root.keepMapped
    decreases |uses|
  {
    if uses != [] {
      UseStepConsistent(u, uses[0]);
      UseRunConsistent(UseStep(u, uses[0]), uses[1..]);
    }
  }

  /** A new memory, used in any way and then freed: no call was wrong, and nothing is left mapped. */
  lemma EveryMappingIsUnmapped(fd: int, size: nat, keepMapped: bool, uses: seq<Use>)
    ensures Consistent(UseRun(Users(NewRoot(fd, size, keepMapped), []), uses))
    ensures Replay(FreeRoot(UseRun(Users(NewRoot(fd, size, keepMapped), []), uses).root).calls) == Nothing
  {
    var u := Users(NewRoot(fd, size, keepMapped), []);
    UseRunConsistent(u, uses);
    var m := UseRun(u, uses).root;
    if m.data != None {
      ReplayMore(m.calls, Munmap(m.data.value, m.maxsize));
    }
  }

  // ---- Windows and shares ----

  /** The part of a file a memory shows. */
  datatype Window = Window(offset: int, size: int)

  predicate Fits(w: Window, maxsize: nat) { 0 <= w.offset && 0 <= w.size && w.offset + w.size <= maxsize }

  function Exposed(content: seq<byte>, w: Window): seq<byte>
    requires Fits(w, |content|)
  {
    content[w.offset..w.offset + w.size]
  }

  /** The window of a share; a size of -1 asks for everything from `offset` on. */
  function Shared(w: Window, maxsize: nat, offset: int, size: int): Window {
    Window(w.offset + offset, if size == -1 then maxsize - offset else size)
  }

  /** A share of a share is a share at the sum of the offsets, and shows the part of the part. */
  lemma SharesCompose(content: seq<byte>, w: Window, off1: nat, size1: nat, off2: nat, size2: nat)
    requires Fits(w, |content|) && off1 + size1 <= w.size && off2 + size2 <= size1
    ensures var s1 := Shared(w, |content|, off1, size1);
            var s2 := Shared(s1, |content|, off2, size2);
            && s2 == Shared(w, |content|, off1 + off2, size2)
            && Fits(s1, |content|) && Fits(s2, |content|)
            && Exposed(content, s1) == Exposed(content, w)[off1..off1 + size1]
            && Exposed(content, s2) == Exposed(content, s1)[off2..off2 + size2]
  {
    Slice(content, w.offset, w.size, off1, size1);
    Slice(content, w.offset + off1, size1, off2, size2);
  }

  lemma Slice(s: seq<byte>, at: nat, n: nat, off: nat, size: nat)
    requires at + n <= |s| && off + size <= n
    ensures s[at + off..at + off + size] == s[at..at + n][off..off + size]
  {
    var whole, part := s[at + off..at + off + size], s[at..at + n];
    assert forall k :: 0 <= k < size ==> whole[k] == part[off + k];
  }

  /** Asking for everything gives a window inside the memory only if the memory's own window starts at 0. */
  lemma ShareOfRestFitsIff(w: Window, maxsize: nat, offset: int)
    requires Fits(w, maxsize) && 0 <= offset <= maxsize
    ensures Fits(Shared(w, maxsize, offset, -1), maxsize) <==> w.offset == 0
  {
  }

  // ---- The memory as an object ----

  class FdMemory {
    const parent: FdMemory?
    const keepMapped: bool
    const fd: int
    const maxsize: nat
    const window: Window
    var data: Option<nat>
    var mmappingFlags: Prot
    var mmapCount: int
    ghost var calls: seq<Call>

    /** The memory that is really mapped: shares hang directly below it. */
    function Root(): FdMemory { if parent == null then this else parent }

    ghost predicate Valid() { parent != null ==> parent.parent == null && parent.maxsize == maxsize }

    ghost function View(): RootView
      reads this
    {
      RootView(keepMapped, fd, maxsize, data, mmappingFlags, mmapCount, calls)
    }

    constructor Alloc(fd: int, size: nat, keepMapped: bool)
      ensures Valid() && Root() == this && View() == NewRoot(fd, size, keepMapped) && window == Window(0, size)
    {
      parent, this.fd, maxsize, window := null, fd, size, Window(0, size);
      this.keepMapped := keepMapped;
      data, mmappingFlags, mmapCount, calls := None, NO_ACCESS, 0, [];
    }

    /** A share: not mapped itself, with the root of `mem` as its parent. */
    constructor Share(mem: FdMemory, offset: int, size: int)
      requires mem.Valid()
      ensures Valid() && Root() == mem.Root() && window == Shared(mem.window, mem.maxsize, offset, size)
      ensures data == None && maxsize == mem.maxsize && fd == mem.fd
    {
      parent := mem.Root();
      keepMapped, fd, maxsize := false, mem.fd, mem.maxsize;
      window := Shared(mem.window, mem.maxsize, offset, size);
      data, mmappingFlags, mmapCount, calls := None, NO_ACCESS, 0, [];
    }

    method Map(request: Prot, answer: Answer) returns (ret: Option<nat>)
      requires Valid()
      modifies Root()
      ensures Mapped(Root().View(), ret) == MapRoot(old(Root().View()), request, answer)
      decreases if parent == null then 0 else 1
    {
      if parent != null {
        ret := parent.Map(request, answer);
        return;
      }
      if data != None {
        if !Covers(mmappingFlags, request) {
          var newProt := Join(mmappingFlags, request);
          if !answer.mprotect {
            return None;
          }
          calls := calls + [Mprotect(data.value, maxsize, newProt)];
          mmappingFlags := Join(mmappingFlags, newProt);
        }
        mmapCount := mmapCount + 1;
        return data;
      }
      if fd != -1 {
        data := answer.mmap;
        if data == None {
          return None;
        }
        calls := calls + [Mmap(data.value, maxsize, request)];
      }
      if data != None {
        mmappingFlags := request;
        mmapCount := mmapCount + 1;
      }
      return data;
    }

    method Unmap()
      requires Valid()
      modifies Root()
      ensures Root().View() == UnmapRoot(old(Root().View()))
      decreases if parent == null then 0 else 1
    {
      if parent != null {
        parent.Unmap();
        return;
      }
      if keepMapped {
        return;
      }
      if data != None {
        mmapCount := mmapCount - 1;
        if mmapCount == 0 {
          calls := calls + [Munmap(data.value, maxsize)];
          data := None;
          mmappingFlags := NO_ACCESS;
        }
      }
    }

    /** Frees this memory only; a share leaves its root alone. The descriptor is closed with the root. */
    method Free() returns (closed: bool)
      modifies this
      ensures View() == FreeRoot(old(View()))
      ensures closed <==> fd >= 0 && parent == null
    {
      if data != None {
        calls := calls + [Munmap(data.value, maxsize)];
        data := None;
      }
      closed := fd >= 0 && parent == null;
    }
  }
}

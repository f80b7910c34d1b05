/** What a process knows by name, and by which context, read off the registrations it was sent. */
module RegisterHistory {
  import opened Basics
  import opened PathRegistry
  import opened StoreModel
  import opened StoreInvariant
  import opened FrameTotals

  predicate NamesFunction(rs: seq<Register>, k: nat, func: nat) {
    k < |rs| && rs[k].RegisterFunction? && rs[k].id == func
  }

  predicate NamesTypeAt(rs: seq<Register>, k: nat, ty: nat) {
    k < |rs| && rs[k].RegisterType? && rs[k].id == ty
  }

  predicate NamesPath(rs: seq<Register>, k: nat, id: nat) {
    k < |rs| && rs[k].RegisterPath? && rs[k].id == id
  }

  predicate FunctionBefore(rs: seq<Register>, n: nat, func: nat) {
    exists k: nat :: k < n && NamesFunction(rs, k, func)
  }

  predicate TypeBefore(rs: seq<Register>, n: nat, ty: nat) {
    exists k: nat :: k < n && NamesTypeAt(rs, k, ty)
  }

  /**
    A context registration in order: its function named before it, and its parent
    numbered below it and, unless that is the root, sent in order before it.
   */
  predicate InOrderAt(rs: seq<Register>, k: nat)
    decreases k
  {
    && k < |rs| && rs[k].RegisterPath? && rs[k].node.parent < rs[k].id
    && FunctionBefore(rs, k, rs[k].node.func)
    && (rs[k].node.parent == 0 || exists j: nat :: j < k && NamesPath(rs, j, rs[k].node.parent) && InOrderAt(rs, j))
  }

  predicate PathBefore(rs: seq<Register>, n: nat, id: nat) {
    exists k: nat :: k < n && NamesPath(rs, k, id) && InOrderAt(rs, k)
  }

  /** The first registration of the context that came in order. */
  predicate FirstFor(rs: seq<Register>, k: nat, id: nat) {
    NamesPath(rs, k, id) && InOrderAt(rs, k) && !PathBefore(rs, k, id)
  }

  /** The last registration of the function among the first `n`. */
  predicate LastFor(rs: seq<Register>, n: nat, k: nat, func: nat) {
    k < n && NamesFunction(rs, k, func) && forall j: nat :: k < j < n ==> !NamesFunction(rs, j, func)
  }

  predicate LastTypeFor(rs: seq<Register>, n: nat, k: nat, ty: nat) {
    k < n && NamesTypeAt(rs, k, ty) && forall j: nat :: k < j < n ==> !NamesTypeAt(rs, j, ty)
  }

  // ---------------------------------------------------------------- what the first registrations leave known

  /** A function is known by the last name it was sent under, and not if it was sent under none. */
  ghost predicate FunctionTold(s: Store, rs: seq<Register>, n: nat, func: nat) {
    && (func in s.functions <==> FunctionBefore(rs, n, func))
    && (func in s.functions ==> exists k: nat :: LastFor(rs, n, k, func) && s.functions[func].name == rs[k].name)
  }

  ghost predicate TypeTold(s: Store, rs: seq<Register>, n: nat, ty: nat) {
    && (ty in s.types <==> TypeBefore(rs, n, ty))
    && (ty in s.types ==> exists k: nat :: LastTypeFor(rs, n, k, ty) && s.types[ty].name == rs[k].name)
  }

  /** A context is known as it was first sent in order, and not if it never was. */
  ghost predicate PathTold(s: Store, rs: seq<Register>, n: nat, id: nat) {
    && (id in s.paths <==> PathBefore(rs, n, id))
    && (id in s.paths ==> exists k: nat :: k < n && FirstFor(rs, k, id) && s.paths[id] == rs[k].node)
  }

  lemma {:induction false} FunctionStep(s: Store, rs: seq<Register>, n: nat, func: nat)
    requires n < |rs| && FunctionTold(s, rs, n, func)
    ensures FunctionTold(Admit(s, rs[n]), rs, n + 1, func)
  {
    if NamesFunction(rs, n, func) {
      assert LastFor(rs, n + 1, n, func);
    } else if func in s.functions {
      var k: nat :| LastFor(rs, n, k, func) && s.functions[func].name == rs[k].name;
      assert LastFor(rs, n + 1, k, func);
    }
  }

  lemma {:induction false} TypeStep(s: Store, rs: seq<Register>, n: nat, ty: nat)
    requires n < |rs| && TypeTold(s, rs, n, ty)
    ensures TypeTold(Admit(s, rs[n]), rs, n + 1, ty)
  {
    if NamesTypeAt(rs, n, ty) {
      assert LastTypeFor(rs, n + 1, n, ty);
    } else if ty in s.types {
      var k: nat :| LastTypeFor(rs, n, k, ty) && s.types[ty].name == rs[k].name;
      assert LastTypeFor(rs, n + 1, k, ty);
    }
  }

  /** The four checks are that the registration is in order and at odds with none taken before. */
  lemma {:induction false} RefusedIfOutOfOrder(s: Store, rs: seq<Register>, n: nat)
    requires n < |rs| && rs[n].RegisterPath?
    requires FunctionTold(s, rs, n, rs[n].node.func) && PathTold(s, rs, n, rs[n].node.parent)
    ensures RefusesPath(s, rs[n].id, rs[n].node)
       <==> !InOrderAt(rs, n) || (rs[n].id in s.paths && s.paths[rs[n].id] != rs[n].node)
  {
  }

  lemma {:induction false} PathStep(s: Store, rs: seq<Register>, n: nat, id: nat)
    requires n < |rs| && (forall f :: FunctionTold(s, rs, n, f)) && (forall p :: PathTold(s, rs, n, p))
    ensures PathTold(Admit(s, rs[n]), rs, n + 1, id)
  {
    assert PathTold(s, rs, n, id);
    if id in s.paths {
      var k: nat :| k < n && FirstFor(rs, k, id) && s.paths[id] == rs[k].node;
    }
    if NamesPath(rs, n, id) {
      RefusedIfOutOfOrder(s, rs, n);
      if InOrderAt(rs, n) && id !in s.paths { assert FirstFor(rs, n, id); }
    }
  }

  lemma {:induction false} RegistersTell(rs: seq<Register>, n: nat)
    requires n <= |rs|
    ensures forall f :: FunctionTold(AdmitAll(FRESH, rs[..n]), rs, n, f)
    ensures forall ty :: TypeTold(AdmitAll(FRESH, rs[..n]), rs, n, ty)
    ensures forall id :: PathTold(AdmitAll(FRESH, rs[..n]), rs, n, id)
  {
    if n > 0 {
      RegistersTell(rs, n - 1);
      var s, next := AdmitAll(FRESH, rs[..n - 1]), AdmitAll(FRESH, rs[..n]);
      assert rs[..n][..n - 1] == rs[..n - 1];
      assert next == Admit(s, rs[n - 1]);
      forall f ensures FunctionTold(next, rs, n, f) { FunctionStep(s, rs, n - 1, f); }
      forall ty ensures TypeTold(next, rs, n, ty) { TypeStep(s, rs, n - 1, ty); }
      forall id ensures PathTold(next, rs, n, id) { PathStep(s, rs, n - 1, id); }
    }
  }

  // ---------------------------------------------------------------- a run of frames

  /** All registrations of the frames, in order. */
  function AllRegisters(frames: seq<Frame>): seq<Register> {
    if frames == [] then [] else AllRegisters(frames[..|frames| - 1]) + frames[|frames| - 1].registers
  }

  lemma {:induction false} AdmitMore(s: Store, a: seq<Register>, b: seq<Register>)
    ensures AdmitAll(s, a + b) == AdmitAll(AdmitAll(s, a), b)
  {
    if b == [] {
      assert a + b == a;
    } else {
      assert (a + b)[..|a + b| - 1] == a + b[..|b| - 1];
      AdmitMore(s, a, b[..|b| - 1]);
    }
  }

  lemma {:induction false} NamesComeFromRegisters(frames: seq<Frame>)
    requires forall k :: 0 <= k < |frames| ==> FrameOk(frames[k])
    ensures SameNames(AdmitAll(FRESH, AllRegisters(frames)), ApplyAll(FRESH, frames))
  {
    if frames != [] {
      var front, f := frames[..|frames| - 1], frames[|frames| - 1];
      NamesComeFromRegisters(front);
      ReachedIsTrue(front);
      AdmitMore(FRESH, AllRegisters(front), f.registers);
      AdmitAllSameNames(AdmitAll(FRESH, AllRegisters(front)), ApplyAll(FRESH, front), f.registers);
      AdmittedNames(ApplyAll(FRESH, front), f);
      SameNamesChain(AdmitAll(FRESH, AllRegisters(frames)), AdmitAll(ApplyAll(FRESH, front), f.registers),
                     ApplyAll(FRESH, frames));
    }
  }

  /**
    Names from the frames. A function or a type is known exactly if some frame
    registered it, by the last name it was given. A context is known exactly if
    it was registered in order, its function and its caller before it, and as it
    was the first time that it was.
   */
  lemma {:induction false} NamesFromFrames(frames: seq<Frame>, func: nat, ty: nat, id: nat)
    requires forall k :: 0 <= k < |frames| ==> FrameOk(frames[k])
    ensures var s, rs := ApplyAll(FRESH, frames), AllRegisters(frames);
            FunctionTold(s, rs, |rs|, func) && TypeTold(s, rs, |rs|, ty) && PathTold(s, rs, |rs|, id)
  {
    var rs := AllRegisters(frames);
    NamesComeFromRegisters(frames);
    RegistersTell(rs, |rs|);
    assert rs[..|rs|] == rs;
    SameNamesTold(AdmitAll(FRESH, rs), ApplyAll(FRESH, frames), rs, func, ty, id);
  }

  lemma {:induction false} SameNamesTold(s: Store, s': Store, rs: seq<Register>, func: nat, ty: nat, id: nat)
    requires SameNames(s, s')
    requires FunctionTold(s, rs, |rs|, func) && TypeTold(s, rs, |rs|, ty) && PathTold(s, rs, |rs|, id)
    ensures FunctionTold(s', rs, |rs|, func) && TypeTold(s', rs, |rs|, ty) && PathTold(s', rs, |rs|, id)
  {
  }

  // ---------------------------------------------------------------- refusals

  /** At odds with how the context first came in order. */
  predicate Conflicts(rs: seq<Register>, k: nat)
    requires k < |rs| && rs[k].RegisterPath?
  {
    exists j: nat :: j < k && FirstFor(rs, j, rs[k].id) && rs[j].node != rs[k].node
  }

  /** The context registrations among the first `n` that came out of order or at odds with an earlier one. */
  function RefusedBefore(rs: seq<Register>, n: nat): nat
    requires n <= |rs|
  {
    if n == 0 then 0
    else
      RefusedBefore(rs, n - 1)
      + if rs[n - 1].RegisterPath? && (!InOrderAt(rs, n - 1) || Conflicts(rs, n - 1)) then 1 else 0
  }

  lemma {:induction false} OneFirst(rs: seq<Register>, j: nat, k: nat, id: nat)
    requires FirstFor(rs, j, id) && FirstFor(rs, k, id)
    ensures j == k
  {
  }

  lemma {:induction false} RefusedIsConflict(s: Store, rs: seq<Register>, k: nat)
    requires k < |rs| && rs[k].RegisterPath?
    requires FunctionTold(s, rs, k, rs[k].node.func) && PathTold(s, rs, k, rs[k].node.parent) && PathTold(s, rs, k, rs[k].id)
    ensures RefusesPath(s, rs[k].id, rs[k].node) <==> !InOrderAt(rs, k) || Conflicts(rs, k)
  {
    RefusedIfOutOfOrder(s, rs, k);
    if rs[k].id in s.paths {
      var j: nat :| j < k && FirstFor(rs, j, rs[k].id) && s.paths[rs[k].id] == rs[j].node;
      if i: nat :| i < k && FirstFor(rs, i, rs[k].id) && rs[i].node != rs[k].node { OneFirst(rs, i, j, rs[k].id); }
    }
  }

  lemma {:induction false} RefusalsTold(rs: seq<Register>, n: nat)
    requires n <= |rs|
    ensures Refused(FRESH, rs[..n]) == RefusedBefore(rs, n)
  {
    if n > 0 {
      var k := n - 1;
      RefusalsTold(rs, k);
      assert rs[..n][..k] == rs[..k];
      RegistersTell(rs, k);
      if rs[k].RegisterPath? { RefusedIsConflict(AdmitAll(FRESH, rs[..k]), rs, k); }
    }
  }

  lemma {:induction false} RefusedMore(s: Store, a: seq<Register>, b: seq<Register>)
    ensures Refused(s, a + b) == Refused(s, a) + Refused(AdmitAll(s, a), b)
  {
    if b == [] {
      assert a + b == a;
    } else {
      assert (a + b)[..|a + b| - 1] == a + b[..|b| - 1];
      RefusedMore(s, a, b[..|b| - 1]);
      AdmitMore(s, a, b[..|b| - 1]);
    }
  }

  /** Events of the frames whose name was not known once their frame's registrations were in. */
  ghost function UnnamedIn(frames: seq<Frame>): nat
    requires forall k :: 0 <= k < |frames| ==> FrameOk(frames[k])
  {
    if frames == [] then 0
    else UnnamedIn(frames[..|frames| - 1]) + Unnamed(ApplyAll(FRESH, frames), frames[|frames| - 1].events)
  }

  lemma {:induction false} UnknownParts(frames: seq<Frame>)
    requires forall k :: 0 <= k < |frames| ==> FrameOk(frames[k])
    ensures UnknownIn(frames) == Refused(FRESH, AllRegisters(frames)) + UnnamedIn(frames)
  {
    if frames != [] {
      var front, f := frames[..|frames| - 1], frames[|frames| - 1];
      UnknownParts(front);
      RefusedMore(FRESH, AllRegisters(front), f.registers);
      NamesComeFromRegisters(front);
      SameNamesRefuse(AdmitAll(FRESH, AllRegisters(front)), ApplyAll(FRESH, front), f.registers);
    }
  }

  /**
    The counter of unknown ids is the number of context registrations that came
    out of order or at odds with an earlier one, and of events that named nothing
    known.
   */
  lemma {:induction false} UnknownFromFrames(frames: seq<Frame>)
    requires forall k :: 0 <= k < |frames| ==> FrameOk(frames[k])
    ensures var rs := AllRegisters(frames);
            ApplyAll(FRESH, frames).counts.unknownId == RefusedBefore(rs, |rs|) + UnnamedIn(frames)
  {
    var rs := AllRegisters(frames);
    CountsFromFrames(frames);
    UnknownParts(frames);
    RefusalsTold(rs, |rs|);
    assert rs[..|rs|] == rs;
  }
}

/** The tools a model gets to see: pinned ones, and a bounded set of recently used ones. */
module WorkingSet {
  import opened Text

  // ---- Recency

  function Without(names: seq<string>, gone: string): seq<string> {
    if names == [] then []
    else if names[0] == gone then Without(names[1..], gone)
    else [names[0]] + Without(names[1..], gone)
  }

  /** Puts a name at the recent end, wherever it was. */
  function Touch(names: seq<string>, name: string): seq<string> {
    Without(names, name) + [name]
  }

  function TouchAll(names: seq<string>, used: seq<string>): seq<string>
    decreases |used|
  {
    if used == [] then names else TouchAll(Touch(names, used[0]), used[1..])
  }

  /** The `n` most recent names. */
  function Newest(names: seq<string>, n: nat): (r: seq<string>)
    ensures |r| == if |names| <= n then |names| else n
  {
    if |names| <= n then names else names[|names| - n..]
  }

  /** The names of a use history, each once, in the order of their last use. */
  function Recent(history: seq<string>): seq<string> {
    TouchAll([], history)
  }

  lemma {:induction false} WithoutMembers(names: seq<string>, gone: string)
    ensures forall x :: x in Without(names, gone) <==> x in names && x != gone
    ensures gone !in names ==> Without(names, gone) == names
  {
    if names != [] {
      WithoutMembers(names[1..], gone);
      assert names == [names[0]] + names[1..];
    }
  }

  lemma {:induction false} WithoutDistinct(names: seq<string>, gone: string)
    requires NoDuplicates(names)
    ensures NoDuplicates(Without(names, gone))
  {
    if names != [] {
      WithoutDistinct(names[1..], gone);
      WithoutMembers(names[1..], gone);
      assert names[0] !in names[1..];
    }
  }

  lemma WithoutFacts(names: seq<string>, gone: string)
    ensures forall x :: x in Without(names, gone) <==> x in names && x != gone
    ensures NoDuplicates(names) ==> NoDuplicates(Without(names, gone))
    ensures gone !in names ==> Without(names, gone) == names
  {
    WithoutMembers(names, gone);
    if NoDuplicates(names) {
      WithoutDistinct(names, gone);
    }
  }

  lemma {:induction false} WithoutConcat(a: seq<string>, b: seq<string>, gone: string)
    ensures Without(a + b, gone) == Without(a, gone) + Without(b, gone)
  {
    if a == [] {
      assert a + b == b;
    } else {
      assert (a + b)[1..] == a[1..] + b;
      WithoutConcat(a[1..], b, gone);
    }
  }

  lemma TouchFacts(names: seq<string>, name: string)
    requires NoDuplicates(names)
    ensures NoDuplicates(Touch(names, name))
    ensures forall x :: x in Touch(names, name) <==> x in names || x == name
  {
    var others := Without(names, name);
    WithoutFacts(names, name);
    assert forall i :: 0 <= i < |others| ==> others[i] in others;
  }

  lemma {:induction false} TouchAllFacts(names: seq<string>, used: seq<string>)
    requires NoDuplicates(names)
    ensures NoDuplicates(TouchAll(names, used))
    ensures forall x :: x in TouchAll(names, used) <==> x in names || x in used
    decreases |used|
  {
    if used != [] {
      TouchFacts(names, used[0]);
      TouchAllFacts(Touch(names, used[0]), used[1..]);
      assert used == [used[0]] + used[1..];
    }
  }

  lemma {:induction false} TouchAllConcat(names: seq<string>, a: seq<string>, b: seq<string>)
    ensures TouchAll(names, a + b) == TouchAll(TouchAll(names, a), b)
    decreases |a|
  {
    if a == [] {
      assert a + b == b;
    } else {
      assert (a + b)[1..] == a[1..] + b;
      TouchAllConcat(Touch(names, a[0]), a[1..], b);
    }
  }

  /** The last position at which a name was used. */
  function LastUse(history: seq<string>, name: string): (i: nat)
    requires name in history
    ensures i < |history| && history[i] == name && name !in history[i + 1..]
  {
    if history[|history| - 1] == name then |history| - 1 else LastUse(history[..|history| - 1], name)
  }

  /** `Recent` lists exactly the used names, once each, by last use. */
  lemma {:induction false} RecentByLastUse(history: seq<string>)
    ensures NoDuplicates(Recent(history))
    ensures forall x :: x in Recent(history) <==> x in history
    ensures ByLastUse(history, Recent(history))
    decreases |history|
  {
    TouchAllFacts([], history);
    if history != [] {
      var front, last := history[..|history| - 1], history[|history| - 1];
      RecentByLastUse(front);
      assert history == front + [last];
      TouchAllConcat([], front, [last]);
      var older := Recent(front);
      assert Recent(history) == Touch(older, last);
      WithoutKeepsOrder(front, older, last);
      WithoutMembers(older, last);
      LastUseSnoc(front, last, Without(older, last));
    }
  }

  /** After one more use, the used name comes last and the others stay as they were. */
  lemma LastUseSnoc(front: seq<string>, last: string, names: seq<string>)
    requires ByLastUse(front, names) && last !in names
    ensures ByLastUse(front + [last], names + [last])
  {
    var history, more := front + [last], names + [last];
    assert history[..|history| - 1] == front;
    forall i | 0 <= i < |names| ensures more[i] in history && LastUse(history, more[i]) == LastUse(front, names[i]) {
      assert more[i] == names[i] && names[i] in names;
    }
  }

  ghost predicate ByLastUse(history: seq<string>, names: seq<string>) {
    && (forall i :: 0 <= i < |names| ==> names[i] in history)
    && (forall i, j :: 0 <= i < j < |names| ==> LastUse(history, names[i]) < LastUse(history, names[j]))
  }

  lemma {:induction false} WithoutKeepsOrder(history: seq<string>, names: seq<string>, gone: string)
    requires ByLastUse(history, names)
    ensures ByLastUse(history, Without(names, gone))
  {
    if names != [] {
      var tail := names[1..];
      assert forall i :: 0 <= i < |tail| ==> tail[i] == names[i + 1];
      WithoutKeepsOrder(history, tail, gone);
      if names[0] != gone {
        WithoutMembers(tail, gone);
        forall x | x in Without(tail, gone) ensures x in history && LastUse(history, names[0]) < LastUse(history, x) {
          assert x in tail;
        }
        PrependByLastUse(history, names[0], Without(tail, gone));
      }
    }
  }

  lemma PrependByLastUse(history: seq<string>, first: string, rest: seq<string>)
    requires first in history && ByLastUse(history, rest)
    requires forall x :: x in rest ==> x in history && LastUse(history, first) < LastUse(history, x)
    ensures ByLastUse(history, [first] + rest)
  {
    var names := [first] + rest;
    assert forall i :: 0 < i < |names| ==> names[i] == rest[i - 1];
  }

  // ---- Evicting once per batch

  /** `a` is the recent end of `b`, and unless it is all of it, at least `n` long. */
  ghost predicate RecentEnd(a: seq<string>, b: seq<string>, n: nat) {
    && |a| <= |b| && b[|b| - |a|..] == a
    && (|a| == |b| || |a| >= n)
  }

  lemma RecentEndOf(older: seq<string>, a: seq<string>, n: nat)
    ensures RecentEnd(a, older + a, n) <==> older == [] || |a| >= n
  {
  }

  /** No name of a duplicate-free list is on both sides of a cut. */
  lemma CutApart(older: seq<string>, a: seq<string>, name: string)
    requires NoDuplicates(older + a) && name in a
    ensures name !in older && NoDuplicates(a)
  {
    var b := older + a;
    assert forall i :: 0 <= i < |older| ==> older[i] == b[i];
    assert forall j :: 0 <= j < |a| ==> a[j] == b[|older| + j];
  }

  lemma TouchRecentEnd(a: seq<string>, b: seq<string>, n: nat, name: string)
    requires RecentEnd(a, b, n) && NoDuplicates(b)
    ensures RecentEnd(Touch(a, name), Touch(b, name), n)
  {
    var older := b[..|b| - |a|];
    assert b == older + a;
    WithoutConcat(older, a, name);
    assert Touch(b, name) == Without(older, name) + Touch(a, name);
    RecentEndOf(Without(older, name), Touch(a, name), n);
    WithoutLength(a, name);
    if name in a {
      CutApart(older, a, name);
    } else {
      WithoutMembers(a, name);
    }
  }

  lemma {:induction false} WithoutLength(names: seq<string>, gone: string)
    ensures |Without(names, gone)| <= |names|
    ensures NoDuplicates(names) && gone in names ==> |Without(names, gone)| == |names| - 1
  {
    if names != [] {
      WithoutLength(names[1..], gone);
      WithoutFacts(names[1..], gone);
    }
  }

  lemma {:induction false} TouchAllRecentEnd(a: seq<string>, b: seq<string>, n: nat, used: seq<string>)
    requires RecentEnd(a, b, n) && NoDuplicates(b)
    ensures RecentEnd(TouchAll(a, used), TouchAll(b, used), n)
    decreases |used|
  {
    if used != [] {
      TouchRecentEnd(a, b, n, used[0]);
      TouchFacts(b, used[0]);
      TouchAllRecentEnd(Touch(a, used[0]), Touch(b, used[0]), n, used[1..]);
    }
  }

  /** Forgetting all but the newest before more uses changes nothing about the newest afterwards. */
  lemma EvictionCommutes(names: seq<string>, used: seq<string>, n: nat)
    requires NoDuplicates(names)
    ensures Newest(TouchAll(Newest(names, n), used), n) == Newest(TouchAll(names, used), n)
  {
    TouchAllRecentEnd(Newest(names, n), names, n, used);
  }

  /** The names of a batch that count as uses: not empty and not pinned. */
  function Usable(pinned: set<string>, names: seq<string>): seq<string> {
    if names == [] then []
    else if names[0] == "" || names[0] in pinned then Usable(pinned, names[1..])
    else [names[0]] + Usable(pinned, names[1..])
  }

  lemma {:induction false} UsableConcat(pinned: set<string>, a: seq<string>, b: seq<string>)
    ensures Usable(pinned, a + b) == Usable(pinned, a) + Usable(pinned, b)
  {
    if a == [] {
      assert a + b == b;
    } else {
      assert (a + b)[1..] == a[1..] + b;
      UsableConcat(pinned, a[1..], b);
    }
  }

  lemma {:induction false} UsableMembers(pinned: set<string>, names: seq<string>)
    ensures forall x :: x in Usable(pinned, names) <==> x in names && x != "" && x !in pinned
  {
    if names != [] {
      UsableMembers(pinned, names[1..]);
      assert names == [names[0]] + names[1..];
    }
  }

  /** The working set after one batch of uses. */
  function AfterBatch(active: seq<string>, pinned: set<string>, size: nat, names: seq<string>): seq<string> {
    Newest(TouchAll(active, Usable(pinned, names)), size)
  }

  function AfterBatches(pinned: set<string>, size: nat, batches: seq<seq<string>>): seq<string> {
    if batches == [] then []
    else AfterBatch(AfterBatches(pinned, size, batches[..|batches| - 1]), pinned, size, batches[|batches| - 1])
  }

  function Join(batches: seq<seq<string>>): seq<string> {
    if batches == [] then [] else Join(batches[..|batches| - 1]) + batches[|batches| - 1]
  }

  /**
   After any batches of uses the working set is the most recently used distinct names, by last use.
   Only the names in order matter, not how they are grouped: evicting once per batch is evicting
   after every name.
   */
  lemma {:induction false} BatchesKeepMostRecent(pinned: set<string>, size: nat, batches: seq<seq<string>>)
    ensures AfterBatches(pinned, size, batches) == Newest(Recent(Usable(pinned, Join(batches))), size)
  {
    if batches != [] {
      var front, last := batches[..|batches| - 1], batches[|batches| - 1];
      BatchesKeepMostRecent(pinned, size, front);
      var before, used := Usable(pinned, Join(front)), Usable(pinned, last);
      TouchAllFacts([], before);
      EvictionCommutes(Recent(before), used, size);
      TouchAllConcat([], before, used);
      UsableConcat(pinned, Join(front), last);
    }
  }

  // ---- Pinning between the batches

  datatype Op = Use(names: seq<string>) | PinOp(pin: string) | UnpinOp(unpin: string)

  /** What is pinned, and the names in order of last use. */
  datatype Tools = Tools(pinned: set<string>, names: seq<string>)

  function Named(name: string): set<string> {
    if Strip(name) == "" then {} else {Strip(name)}
  }

  /** One operation; `size` names at most are kept, or all if there is no size. */
  function Apply(t: Tools, size: Option<nat>, op: Op): Tools {
    match op
    case Use(names) =>
      var used := TouchAll(t.names, Usable(t.pinned, names));
      t.(names := if size.Some? then Newest(used, size.value) else used)
    case PinOp(name) => Tools(t.pinned + Named(name), Without(t.names, Strip(name)))
    case UnpinOp(name) => t.(pinned := t.pinned - Named(name))
  }

  function RunOps(pinned: set<string>, size: Option<nat>, ops: seq<Op>): Tools {
    if ops == [] then Tools(pinned, []) else Apply(RunOps(pinned, size, ops[..|ops| - 1]), size, ops[|ops| - 1])
  }

  /** How many names pins have taken out since the set was last full, after one more operation. */
  function GapAfter(kept: Tools, size: nat, gap: nat, op: Op): nat {
    match op
    case Use(_) => if |Apply(kept, Some(size), op).names| == size then 0 else gap
    case PinOp(name) => gap + (if Strip(name) in kept.names then 1 else 0)
    case UnpinOp(_) => gap
  }

  function Gap(pinned: set<string>, size: nat, ops: seq<Op>): nat {
    if ops == [] then 0
    else
      var front := ops[..|ops| - 1];
      GapAfter(RunOps(pinned, Some(size), front), size, Gap(pinned, size, front), ops[|ops| - 1])
  }

  function Minus(a: nat, b: nat): nat {
    if a >= b then a - b else 0
  }

  /** Dropping a name keeps a recent end, one name shorter if it held the name. */
  lemma WithoutRecentEnd(a: seq<string>, b: seq<string>, n: nat, name: string)
    requires RecentEnd(a, b, n) && NoDuplicates(b)
    ensures RecentEnd(Without(a, name), Without(b, name), if name in a then Minus(n, 1) else n)
  {
    var older := b[..|b| - |a|];
    assert b == older + a;
    WithoutConcat(older, a, name);
    RecentEndOf(Without(older, name), Without(a, name), if name in a then Minus(n, 1) else n);
    WithoutLength(a, name);
    if name in a {
      CutApart(older, a, name);
    } else {
      WithoutMembers(a, name);
    }
    if older == [] {
      assert Without(older, name) == [];
    }
  }

  /**
   Whatever is used, pinned and unpinned in whatever order, the working set is the recent end of what
   a set without a size would hold, and short of its size by no more than pins took out since it was full.
   */
  lemma {:induction false} RunsKeepMostRecent(pinned: set<string>, size: nat, ops: seq<Op>)
    ensures var kept, all := RunOps(pinned, Some(size), ops), RunOps(pinned, None, ops);
            && kept.pinned == all.pinned && NoDuplicates(all.names)
            && |kept.names| <= size && RecentEnd(kept.names, all.names, Minus(size, Gap(pinned, size, ops)))
    decreases |ops|
  {
    if ops == [] {
      NothingKept(size);
    } else {
      hide NoDuplicates, RecentEnd, Apply, GapAfter, Minus;
      var front, last := ops[..|ops| - 1], ops[|ops| - 1];
      RunsKeepMostRecent(pinned, size, front);
      var gap := Gap(pinned, size, front);
      StepKeepsEnd(RunOps(pinned, Some(size), front), RunOps(pinned, None, front), size, gap, last);
    }
  }

  lemma NothingKept(n: nat)
    ensures NoDuplicates([]) && RecentEnd([], [], n)
  {
  }

  lemma StepKeepsEnd(kept: Tools, all: Tools, size: nat, gap: nat, op: Op)
    requires kept.pinned == all.pinned && NoDuplicates(all.names) && |kept.names| <= size
    requires RecentEnd(kept.names, all.names, Minus(size, gap))
    ensures var kept', all' := Apply(kept, Some(size), op), Apply(all, None, op);
            && kept'.pinned == all'.pinned && NoDuplicates(all'.names) && |kept'.names| <= size
            && RecentEnd(kept'.names, all'.names, Minus(size, GapAfter(kept, size, gap, op)))
  {
    match op {
      case Use(names) => UseKeepsEnd(kept, all, size, Minus(size, gap), names);
      case PinOp(name) => PinKeepsEnd(kept, all, size, gap, Strip(name));
      case UnpinOp(_) =>
    }
  }

  lemma PinKeepsEnd(kept: Tools, all: Tools, size: nat, gap: nat, name: string)
    requires NoDuplicates(all.names) && |kept.names| <= size && RecentEnd(kept.names, all.names, Minus(size, gap))
    ensures NoDuplicates(Without(all.names, name)) && |Without(kept.names, name)| <= size
    ensures RecentEnd(Without(kept.names, name), Without(all.names, name),
                      Minus(size, gap + (if name in kept.names then 1 else 0)))
  {
    hide NoDuplicates, Without, RecentEnd;
    WithoutRecentEnd(kept.names, all.names, Minus(size, gap), name);
    WithoutFacts(all.names, name);
    WithoutLength(kept.names, name);
  }

  lemma UseKeepsEnd(kept: Tools, all: Tools, size: nat, n: nat, names: seq<string>)
    requires kept.pinned == all.pinned && NoDuplicates(all.names) && n <= size
    requires RecentEnd(kept.names, all.names, n)
    ensures var kept', all' := Apply(kept, Some(size), Use(names)), Apply(all, None, Use(names));
            && kept'.pinned == all'.pinned && NoDuplicates(all'.names) && |kept'.names| <= size
            && RecentEnd(kept'.names, all'.names, if |kept'.names| == size then size else n)
  {
    var used := Usable(all.pinned, names);
    TouchAllFacts(all.names, used);
    TouchAllRecentEnd(kept.names, all.names, n, used);
    NewestRecentEnd(TouchAll(kept.names, used), TouchAll(all.names, used), n, size);
  }

  lemma NewestRecentEnd(a: seq<string>, b: seq<string>, n: nat, size: nat)
    requires RecentEnd(a, b, n) && n <= size
    ensures RecentEnd(Newest(a, size), b, n)
  {
  }

  /** Using at least `size` different names makes the set the most recent ones again, whatever was pinned before. */
  lemma RefillRestores(pinned: set<string>, size: nat, ops: seq<Op>, names: seq<string>)
    requires |Recent(Usable(RunOps(pinned, None, ops).pinned, names))| >= size
    ensures var more := ops + [Use(names)];
            RunOps(pinned, Some(size), more).names == Newest(RunOps(pinned, None, more).names, size)
  {
    hide Apply, Gap, NoDuplicates;
    RunsKeepMostRecent(pinned, size, ops);
    RunOneMore(pinned, Some(size), ops, Use(names));
    RunOneMore(pinned, None, ops, Use(names));
    UseFills(RunOps(pinned, Some(size), ops), RunOps(pinned, None, ops), size, names);
  }

  lemma RunOneMore(pinned: set<string>, size: Option<nat>, ops: seq<Op>, op: Op)
    ensures RunOps(pinned, size, ops + [op]) == Apply(RunOps(pinned, size, ops), size, op)
  {
    assert (ops + [op])[..|ops|] == ops;
  }

  lemma UseFills(kept: Tools, all: Tools, size: nat, names: seq<string>)
    requires kept.pinned == all.pinned && NoDuplicates(all.names) && RecentEnd(kept.names, all.names, 0)
    requires |Recent(Usable(all.pinned, names))| >= size
    ensures Apply(kept, Some(size), Use(names)).names == Newest(Apply(all, None, Use(names)).names, size)
  {
    hide NoDuplicates, TouchAll, Usable, RecentEnd, Newest;
    var used := Usable(all.pinned, names);
    TouchAllRecentEnd(kept.names, all.names, 0, used);
    EndOfLonger(kept.names, all.names);
    TouchAllRecentEnd([], kept.names, 0, used);
    EndLength([], kept.names, used);
    NewestOfEnd(TouchAll(kept.names, used), TouchAll(all.names, used), size);
  }

  lemma EndLength(a: seq<string>, b: seq<string>, used: seq<string>)
    requires RecentEnd(TouchAll(a, used), TouchAll(b, used), 0)
    ensures |TouchAll(a, used)| <= |TouchAll(b, used)|
  {
    hide TouchAll;
  }

  lemma NewestOfEnd(a: seq<string>, b: seq<string>, size: nat)
    requires RecentEnd(a, b, 0) && |a| >= size
    ensures Newest(a, size) == Newest(b, size)
  {
  }

  lemma EndOfLonger(a: seq<string>, b: seq<string>)
    requires RecentEnd(a, b, 0) && NoDuplicates(b)
    ensures NoDuplicates(a) && RecentEnd([], a, 0)
  {
    assert forall i :: 0 <= i < |a| ==> a[i] == b[|b| - |a| + i];
  }

  // ---- What single operations come to

  /** `less` is `names` without `gone`, which it holds at most once; the others keep their order. */
  ghost predicate Dropped(names: seq<string>, gone: string, less: seq<string>) {
    && gone !in less
    && (gone !in names ==> less == names)
    && (gone in names ==> exists k :: 0 <= k < |names| && names[k] == gone && less == names[..k] + names[k + 1..])
  }

  lemma WithoutDrops(names: seq<string>, gone: string)
    requires NoDuplicates(names)
    ensures Dropped(names, gone, Without(names, gone))
  {
    WithoutMembers(names, gone);
    if gone in names {
      var k :| 0 <= k < |names| && names[k] == gone;
      CutAround(names, k);
      WithoutConcat(names[..k], [gone] + names[k + 1..], gone);
      WithoutHead(gone, names[k + 1..]);
      WithoutMembers(names[..k], gone);
      WithoutMembers(names[k + 1..], gone);
    }
  }

  lemma WithoutHead(gone: string, names: seq<string>)
    ensures Without([gone] + names, gone) == Without(names, gone)
  {
    assert ([gone] + names)[1..] == names;
  }

  lemma CutAround(names: seq<string>, k: nat)
    requires NoDuplicates(names) && k < |names|
    ensures names == names[..k] + ([names[k]] + names[k + 1..])
    ensures names[k] !in names[..k] && names[k] !in names[k + 1..]
  {
  }

  // ---- The manager

  class ToolWorkingSetManager {
    var pinned: set<string>
    const size: nat
    var active: seq<string>
    var registryVersion: int

    ghost predicate Valid()
      reads this
    {
      && NoDuplicates(active) && |active| <= size
      && forall x :: x in active ==> x != "" && x !in pinned
    }

    constructor (pinnedTools: seq<string>, workingSetSize: int)
      ensures Valid() && active == [] && pinned == (set x | x in pinnedTools)
      ensures size == if workingSetSize > 0 then workingSetSize else 0
    {
      pinned := set x | x in pinnedTools;
      size := if workingSetSize > 0 then workingSetSize else 0;
      active, registryVersion := [], -1;
    }

    method Pin(name: string)
      requires Valid()
      modifies this
      ensures Valid()
      ensures Tools(pinned, active) == Apply(Tools(old(pinned), old(active)), Some(size), PinOp(name))
      ensures pinned == if Strip(name) == "" then old(pinned) else old(pinned) + {Strip(name)}
      ensures Dropped(old(active), Strip(name), active)
    {
      WithoutDrops(active, Strip(name));
      var n := Strip(name);
      WithoutFacts(active, n);
      WithoutLength(active, n);
      if n == "" || n in pinned {
        return;
      }
      pinned := pinned + {n};
      active := Without(active, n);
    }

    method Unpin(name: string)
      requires Valid()
      modifies this`pinned
      ensures Valid()
      ensures Tools(pinned, active) == Apply(Tools(old(pinned), active), Some(size), UnpinOp(name))
      ensures pinned == if Strip(name) == "" then old(pinned) else old(pinned) - {Strip(name)}
    {
      var n := Strip(name);
      if n == "" {
        return;
      }
      pinned := pinned - {n};
    }

    /** Uses a batch of names and evicts the oldest ones beyond the size. */
    method AddToWorkingSet(names: seq<string>)
      requires Valid()
      modifies this`active
      ensures Valid()
      ensures active == AfterBatch(old(active), pinned, size, names)
      ensures Tools(pinned, active) == Apply(Tools(pinned, old(active)), Some(size), Use(names))
    {
      if names == [] {
        return;
      }
      ghost var goal := TouchAll(active, Usable(pinned, names));
      TouchAllFacts(active, Usable(pinned, names));
      UsableMembers(pinned, names);
      for i := 0 to |names|
        invariant TouchAll(active, Usable(pinned, names[i..])) == goal
      {
        assert names[i..][0] == names[i] && names[i..][1..] == names[i + 1..];
        if names[i] == "" || names[i] in pinned {
          continue;
        }
        active := Touch(active, names[i]);
      }
      assert active == goal;
      while |active| > size
        invariant |active| <= |goal| && active == goal[|goal| - |active|..]
        invariant |active| == |goal| || |active| >= size
      {
        active := active[1..];
      }
      assert forall x :: x in active ==> x in goal;
    }

    /** The pinned tools and the recent ones to show; a new registry version drops names it no longer has. */
    method BuildSnapshot(version: int, allTools: set<string>)
      returns (pinnedVisible: set<string>, recentVisible: seq<string>)
      requires Valid()
      modifies this`active, this`registryVersion
      ensures Valid() && registryVersion == version
      ensures pinnedVisible == pinned * allTools
      ensures recentVisible == active
      ensures active == if version != old(registryVersion) then Known(old(active), allTools) else old(active)
      ensures forall x :: x in active <==> x in old(active) && (version != old(registryVersion) ==> x in allTools)
      ensures InOrder(active, old(active))
    {
      KnownInOrder(active, allTools);
      AllInOrder(active);
      if version != registryVersion {
        KnownFacts(active, allTools);
        active := Known(active, allTools);
        registryVersion := version;
      }
      pinnedVisible := set n | n in pinned && n in allTools;
      var lruRecent := LastSlice(active, size);
      recentVisible := NotPinned(lruRecent, pinned);
      NotPinnedAll(lruRecent, pinned);
    }
  }

  /** The slice `names[-n:]`; for `n` zero that is the whole list. */
  function LastSlice(names: seq<string>, n: nat): seq<string> {
    if n == 0 || |names| <= n then names else names[|names| - n..]
  }

  function Known(names: seq<string>, allTools: set<string>): seq<string> {
    if names == [] then []
    else if names[0] in allTools then [names[0]] + Known(names[1..], allTools)
    else Known(names[1..], allTools)
  }

  lemma {:induction false} KnownFacts(names: seq<string>, allTools: set<string>)
    ensures forall x :: x in Known(names, allTools) <==> x in names && x in allTools
    ensures NoDuplicates(names) ==> NoDuplicates(Known(names, allTools))
    ensures |Known(names, allTools)| <= |names|
  {
    if names != [] {
      var rest := Known(names[1..], allTools);
      KnownFacts(names[1..], allTools);
      assert names == [names[0]] + names[1..];
      if NoDuplicates(names) {
        assert names[0] !in names[1..];
        assert forall i :: 0 <= i < |rest| ==> rest[i] in rest;
      }
    }
  }

  lemma {:induction false} KnownInOrder(names: seq<string>, allTools: set<string>)
    ensures InOrder(Known(names, allTools), names)
  {
    if names != [] {
      KnownInOrder(names[1..], allTools);
      assert names[0] in allTools ==> Known(names, allTools)[1..] == Known(names[1..], allTools);
    }
  }

  lemma {:induction false} AllInOrder(names: seq<string>)
    ensures InOrder(names, names)
  {
    if names != [] {
      AllInOrder(names[1..]);
    }
  }

  function NotPinned(names: seq<string>, pinned: set<string>): seq<string> {
    if names == [] then []
    else if names[0] in pinned then NotPinned(names[1..], pinned)
    else [names[0]] + NotPinned(names[1..], pinned)
  }

  lemma {:induction false} NotPinnedAll(names: seq<string>, pinned: set<string>)
    requires forall x :: x in names ==> x !in pinned
    ensures NotPinned(names, pinned) == names
  {
    if names != [] {
      NotPinnedAll(names[1..], pinned);
    }
  }
}

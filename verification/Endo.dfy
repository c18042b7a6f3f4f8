/** Where the modules of an endo are: rib masks, their validation, and the module that holds an interface. */
module Endo {
  import opened Arithmetic
  import opened Errno

  /** A rib mask as its bits, the least significant first; bits beyond the end are 0. */
  type Mask = seq<bool>

  predicate Bit(mask: Mask, k: nat) {
    k < |mask| && mask[k]
  }

  predicate NonZero(mask: Mask) {
    exists k :: 0 <= k < |mask| && mask[k]
  }

  function Value(mask: Mask): nat {
    if mask == [] then 0 else (if mask[0] then 1 else 0) + 2 * Value(mask[1..])
  }

  lemma {:induction false} ValueInjective(a: Mask, b: Mask)
    requires |a| == |b| && Value(a) == Value(b)
    ensures a == b
  {
    if a != [] {
      ValueInjective(a[1..], b[1..]);
      assert a == [a[0]] + a[1..];
      assert b == [b[0]] + b[1..];
    }
  }

  function Pow2(n: nat): (p: nat)
    ensures p >= 1
  {
    if n == 0 then 1 else 2 * Pow2(n - 1)
  }

  lemma Doubled(x: nat, p: nat)
    ensures x * (2 * p) == 2 * (x * p)
  {
  }

  /** The value of a mask that is put together from two. */
  lemma {:induction false} ValueAppend(a: Mask, b: Mask)
    ensures Value(a + b) == Value(b) * Pow2(|a|) + Value(a)
    ensures Value(a) < Pow2(|a|)
  {
    if a == [] {
      assert a + b == b;
    } else {
      ValueAppend(a[1..], b);
      assert (a + b)[1..] == a[1..] + b;
      Doubled(Value(b), Pow2(|a| - 1));
    }
  }

  /** The value of a mask that is cut in two. */
  lemma ValueCut(mask: Mask, k: nat)
    requires k <= |mask|
    ensures Value(mask) / Pow2(k) == Value(mask[k..]) && Value(mask) % Pow2(k) == Value(mask[..k])
  {
    ValueAppend(mask[..k], mask[k..]);
    assert mask[..k] + mask[k..] == mask;
    DivUnique(Value(mask), Value(mask[k..]), Value(mask[..k]), Pow2(k));
  }

  /** Bits from..to of a mask are its value, shifted down and cut off. */
  lemma ValueSlice(mask: Mask, from: nat, to: nat)
    requires from <= to <= |mask|
    ensures Value(mask[from..to]) == Value(mask) / Pow2(from) % Pow2(to - from)
  {
    ValueCut(mask, from);
    ValueCut(mask[from..], to - from);
    assert mask[from..][..to - from] == mask[from..to];
  }

  lemma BitValue(mask: Mask, k: nat)
    requires k < |mask|
    ensures mask[k] <==> Value(mask) / Pow2(k) % 2 == 1
  {
    ValueSlice(mask, k, k + 1);
    assert mask[k..k + 1] == [mask[k]];
    assert Value([mask[k]]) == if mask[k] then 1 else 0;
    assert Pow2(1) == 2;
  }

  lemma SomePowers()
    ensures Pow2(3) == 8 && Pow2(8) == 0x100 && Pow2(10) == 0x400 && Pow2(12) == 0x1000 && Pow2(13) == 0x2000
  {
    assert Pow2(4) == 16;
    assert Pow2(6) == 64;
    assert Pow2(11) == 0x800;
  }

  // ------------------------------------------------------------- validation

  /** Two neighbouring rib positions are both empty, so a module there is at least three units high. */
  predicate HasGap(count: nat, mask: Mask) {
    exists i {:trigger Bit(mask, i)} :: 0 <= i < count - 1 && !Bit(mask, i) && !Bit(mask, i + 1)
  }

  /** modules_oversized. */
  method ModulesOversized(count: nat, mask: Mask) returns (oversized: bool)
    requires count >= 1
    ensures oversized <==> HasGap(count, mask)
  {
    for i := 0 to count - 1
      invariant forall j {:trigger Bit(mask, j)} :: 0 <= j < i ==> Bit(mask, j) || Bit(mask, j + 1)
    {
      if !Bit(mask, i) && !Bit(mask, i + 1) {
        return true;
      }
    }
    return false;
  }

  /** The mask read from its other end. */
  function Reversed(mask: Mask): (r: Mask)
    ensures |r| == |mask| && forall k :: 0 <= k < |mask| ==> r[k] == mask[|mask| - 1 - k]
  {
    seq(|mask|, k requires 0 <= k < |mask| => mask[|mask| - 1 - k])
  }

  /** reverse_bits: the loop stops as soon as no set bit is left to move; masks of 8 bits bound the width. */
  method ReverseBits(input: Mask, bits: nat) returns (result: Mask)
    requires |input| == bits && 1 <= bits <= 8
    ensures result == Reversed(input)
  {
    result := seq(bits, _ => false);
    var value, i := input, 0;
    while NonZero(value) && i < bits
      invariant 0 <= i <= bits && |value| == bits && |result| == bits
      invariant forall k :: 0 <= k < bits ==> value[k] == (i <= k && input[k])
      invariant forall k :: 0 <= k < bits ==> result[k] == (bits - 1 - k < i && input[bits - 1 - k])
      decreases bits - i
    {
      if value[i] {
        result := result[bits - 1 - i := true];
        value := value[i := false];
      }
      i := i + 1;
    }
    assert forall k :: 0 <= k < bits && i <= k ==> !input[k];
    assert result == Reversed(input);
  }

  function And(a: Mask, b: Mask): (r: Mask)
    requires |a| == |b|
    ensures |r| == |a| && forall k :: 0 <= k < |a| ==> r[k] == (a[k] && b[k])
  {
    seq(|a|, k requires 0 <= k < |a| => a[k] && b[k])
  }

  /** Subtracting one, borrowing through the low zero bits. */
  function Decrement(mask: Mask): (r: Mask)
    ensures |r| == |mask|
  {
    if mask == [] then []
    else if mask[0] then [false] + mask[1..]
    else [true] + Decrement(mask[1..])
  }

  predicate AtMostOne(mask: Mask) {
    forall i, j :: 0 <= i < |mask| && 0 <= j < |mask| && mask[i] && mask[j] ==> i == j
  }

  /** single_cross_rib: clearing the lowest set bit leaves nothing. */
  predicate SingleCrossRib(left: Mask, right: Mask)
    requires |left| == |right|
  {
    var span := And(left, right);
    !NonZero(And(span, Decrement(span)))
  }

  /** Decrement really subtracts one. */
  lemma {:induction false} DecrementValue(mask: Mask)
    requires NonZero(mask)
    ensures Value(Decrement(mask)) == Value(mask) - 1
  {
    if mask[0] {
      assert ([false] + mask[1..])[1..] == mask[1..];
    } else {
      var k :| 0 <= k < |mask| && mask[k];
      assert mask[1..][k - 1];
      DecrementValue(mask[1..]);
      assert ([true] + Decrement(mask[1..]))[1..] == Decrement(mask[1..]);
    }
  }

  /** The power-of-two trick of single_cross_rib. */
  lemma {:induction false} PowerOfTwoTrick(mask: Mask)
    ensures NonZero(And(mask, Decrement(mask))) <==> !AtMostOne(mask)
  {
    if mask == [] {
    } else if mask[0] {
      var d := And(mask, Decrement(mask));
      assert d == [false] + mask[1..];
      if NonZero(d) {
        var k :| 0 <= k < |d| && d[k];
        assert mask[0] && mask[k] && k != 0;
      }
      if !AtMostOne(mask) {
        var i, j :| 0 <= i < |mask| && 0 <= j < |mask| && mask[i] && mask[j] && i != j;
        assert d[if i == 0 then j else i];
      }
    } else {
      var rest := mask[1..];
      PowerOfTwoTrick(rest);
      var d := And(mask, Decrement(mask));
      assert d == [false] + And(rest, Decrement(rest));
      TailNonZero(d);
      assert d[1..] == And(rest, Decrement(rest));
      TailAtMostOne(mask);
    }
  }

  lemma TailNonZero(mask: Mask)
    requires mask != [] && !mask[0]
    ensures NonZero(mask) <==> NonZero(mask[1..])
  {
  }

  lemma TailAtMostOne(mask: Mask)
    requires mask != [] && !mask[0]
    ensures AtMostOne(mask) <==> AtMostOne(mask[1..])
  {
  }

  /** struct endo_layout. */
  datatype Layout = Layout(front: Mask, left: Mask, right: Mask, maxRibs: nat)

  const BACK_RIBS_MINI := 4
  const BACK_RIBS_MEDIUM := 5
  const BACK_RIBS_LARGE := 6

  function LeftRibs(id: Mask, ribs: nat): Mask
    requires 2 * ribs <= |id|
  {
    id[ribs..2 * ribs]
  }

  function RightRibs(id: Mask, ribs: nat): Mask
    requires 2 * ribs <= |id|
  {
    id[..ribs]
  }

  /** The demands on the back of an endo, apart from the choice between the two orientations. */
  predicate SoundBack(id: Mask, ribs: nat)
    requires 2 * ribs <= |id|
  {
    && AtMostOne(And(LeftRibs(id, ribs), RightRibs(id, ribs)))
    && !HasGap(ribs, LeftRibs(id, ribs))
    && !HasGap(ribs, RightRibs(id, ribs))
  }

  predicate Canonical(id: Mask, ribs: nat)
    requires 2 * ribs <= |id|
  {
    ribs == BACK_RIBS_MEDIUM || Value(LeftRibs(id, ribs)) >= Value(Reversed(RightRibs(id, ribs)))
  }

  /** validate_back_ribs. */
  method ValidateBackRibs(id: Mask, ribs: nat) returns (ok: bool, left: Mask, right: Mask)
    requires 2 * ribs <= |id| && 1 <= ribs <= 8
    ensures ok <==> SoundBack(id, ribs) && Canonical(id, ribs)
    ensures ok ==> left == LeftRibs(id, ribs) && right == Reversed(RightRibs(id, ribs))
  {
    left, right := LeftRibs(id, ribs), RightRibs(id, ribs);
    PowerOfTwoTrick(And(left, right));
    if !SingleCrossRib(left, right) {
      return false, left, right;
    }
    var oversized := ModulesOversized(ribs, left);
    if oversized {
      return false, left, right;
    }
    oversized := ModulesOversized(ribs, right);
    if oversized {
      return false, left, right;
    }
    right := ReverseBits(right, ribs);
    if ribs != BACK_RIBS_MEDIUM && Value(left) < Value(right) {
      return false, left, right;
    }
    return true, left, right;
  }

  // ---------------------------------------------------------------- rotation

  /** The id of the same endo turned by 180 degrees: the sides change places, and top and bottom do. */
  function Rotated(id: Mask, ribs: nat): (r: Mask)
    requires 2 * ribs <= |id|
    ensures |r| == |id| && r[2 * ribs..] == id[2 * ribs..]
    ensures LeftRibs(r, ribs) == Reversed(RightRibs(id, ribs))
    ensures RightRibs(r, ribs) == Reversed(LeftRibs(id, ribs))
  {
    Reversed(LeftRibs(id, ribs)) + Reversed(RightRibs(id, ribs)) + id[2 * ribs..]
  }

  lemma ReversedTwice(mask: Mask)
    ensures Reversed(Reversed(mask)) == mask
  {
  }

  lemma GapReversed(mask: Mask)
    requires HasGap(|mask|, mask)
    ensures HasGap(|mask|, Reversed(mask))
  {
    var i :| 0 <= i < |mask| - 1 && !Bit(mask, i) && !Bit(mask, i + 1);
    var j := |mask| - 2 - i;
    assert !Bit(Reversed(mask), j) && !Bit(Reversed(mask), j + 1);
  }

  /** Reversal keeps the height of the modules. */
  lemma GapEitherWay(mask: Mask)
    ensures HasGap(|mask|, mask) <==> HasGap(|mask|, Reversed(mask))
  {
    ReversedTwice(mask);
    if HasGap(|mask|, mask) { GapReversed(mask); }
    if HasGap(|mask|, Reversed(mask)) { GapReversed(Reversed(mask)); }
  }

  lemma AtMostOneReversed(mask: Mask)
    requires AtMostOne(mask)
    ensures AtMostOne(Reversed(mask))
  {
  }

  lemma RotatedSound(id: Mask, ribs: nat)
    requires 2 * ribs <= |id| && SoundBack(id, ribs)
    ensures SoundBack(Rotated(id, ribs), ribs)
  {
    var l, r := LeftRibs(id, ribs), RightRibs(id, ribs);
    GapEitherWay(l);
    GapEitherWay(r);
    AtMostOneReversed(And(l, r));
    assert And(Reversed(r), Reversed(l)) == Reversed(And(l, r));
  }

  /** Outside the medium endo, where the sides differ in width, exactly one of an id and its rotation is accepted,
      unless the two are the same id. */
  lemma OneCanonicalId(id: Mask, ribs: nat)
    requires 2 * ribs <= |id| && ribs != BACK_RIBS_MEDIUM && SoundBack(id, ribs)
    ensures SoundBack(Rotated(id, ribs), ribs)
    ensures Canonical(id, ribs) || Canonical(Rotated(id, ribs), ribs)
    ensures Canonical(id, ribs) && Canonical(Rotated(id, ribs), ribs) <==> Rotated(id, ribs) == id
  {
    RotatedSound(id, ribs);
    var l, r := LeftRibs(id, ribs), RightRibs(id, ribs);
    ReversedTwice(l);
    RotatedIsSame(id, ribs);
    if Value(l) == Value(Reversed(r)) {
      ValueInjective(l, Reversed(r));
    }
  }

  /** An id is its own rotation exactly when its left side read upwards is its right side. */
  lemma RotatedIsSame(id: Mask, ribs: nat)
    requires 2 * ribs <= |id|
    ensures Rotated(id, ribs) == id <==> LeftRibs(id, ribs) == Reversed(RightRibs(id, ribs))
  {
  }

  // ------------------------------------------------------------------ modules

  function Height(layout: Layout): nat {
    layout.maxRibs + 1
  }

  function MaxInterface(layout: Layout): nat {
    4 + Height(layout) * 2
  }

  /** The lowest interface on the side of an endo that holds interface i. */
  function SideStart(layout: Layout, i: nat): (s: nat)
    requires i >= 1
    ensures 1 <= s <= i
  {
    if i <= Height(layout) then 1
    else if i <= 2 * Height(layout) then Height(layout) + 1
    else 2 * Height(layout) + 1
  }

  function SideMask(layout: Layout, i: nat): Mask
    requires i >= 1
  {
    if i <= Height(layout) then layout.left
    else if i <= 2 * Height(layout) then layout.right
    else layout.front
  }

  /** A rib separates interface i from the next one. */
  predicate RibAfter(layout: Layout, i: nat)
    requires i >= 1
  {
    Bit(SideMask(layout, i), i - SideStart(layout, i))
  }

  /** m is the lowest interface of the rib-free block that holds interface i. */
  predicate IsModuleOf(layout: Layout, i: nat, m: nat)
    requires i >= 1
  {
    && 1 <= m <= i
    && SideStart(layout, m) == SideStart(layout, i)
    && (forall k :: m <= k < i ==> !RibAfter(layout, k))
    && (m == SideStart(layout, m) || RibAfter(layout, m - 1))
  }

  /** endo_get_module_id; position is that of the single bit in rib_mask. */
  method GetModuleId(layout: Layout, interface: nat) returns (moduleId: nat)
    ensures interface == 0 ==> moduleId == 0
    ensures interface >= 1 ==> IsModuleOf(layout, interface, moduleId)
  {
    moduleId := interface;
    if interface == 0 {
      return;
    }
    var iid, mask := interface - 1, layout.left;
    if iid < Height(layout) {
    } else if iid < 2 * Height(layout) {
      mask := layout.right;
      iid := iid - Height(layout);
    } else {
      mask := layout.front;
      iid := iid - 2 * Height(layout);
    }
    var position := iid;
    while position > 0 && !Bit(mask, position - 1)
      invariant 0 <= position <= iid && moduleId == SideStart(layout, interface) + position
      invariant forall k :: moduleId <= k < interface ==> !RibAfter(layout, k)
    {
      position := position - 1;
      moduleId := moduleId - 1;
    }
  }

  /** The module of an interface is unique, and interfaces further down have modules further down. */
  lemma ModuleMonotone(layout: Layout, i: nat, j: nat, m: nat, n: nat)
    requires 1 <= i <= j && IsModuleOf(layout, i, m) && IsModuleOf(layout, j, n)
    ensures m <= n
    ensures i == j ==> m == n
    ensures m != n ==> i < n
  {
  }

  /** A module's first interface belongs to that module. */
  lemma ModuleIdempotent(layout: Layout, i: nat, m: nat)
    requires i >= 1 && IsModuleOf(layout, i, m)
    ensures IsModuleOf(layout, m, m)
  {
  }

  /** The modules created so far: increasing, each one the head of a block, all of them created without error. */
  predicate Heads(layout: Layout, created: seq<nat>, ok: nat -> bool) {
    && (forall a, b :: 0 <= a < b < |created| ==> created[a] < created[b])
    && (forall a :: 0 <= a < |created| ==>
          && 1 <= created[a] <= MaxInterface(layout) && ok(created[a])
          && IsModuleOf(layout, created[a], created[a]))
  }

  /** The modules of all interfaces below i are among those created. */
  ghost predicate Covers(layout: Layout, created: seq<nat>, i: nat) {
    forall j, m :: 1 <= j < i && IsModuleOf(layout, j, m) ==> m in created
  }

  /** Module m could not be created; all modules before it have been. */
  ghost predicate FirstRefused(layout: Layout, created: seq<nat>, ok: nat -> bool, m: nat)
    requires m >= 1
  {
    IsModuleOf(layout, m, m) && !ok(m) && Covers(layout, created, m) && forall c :: c in created ==> c < m
  }

  lemma CoversMore(layout: Layout, created: seq<nat>, i: nat, id: nat, more: seq<nat>)
    requires i >= 1 && Covers(layout, created, i) && IsModuleOf(layout, i, id)
    requires id in more && forall m :: m in created ==> m in more
    ensures Covers(layout, more, i + 1)
  {
  }

  lemma HeadsSnoc(layout: Layout, created: seq<nat>, ok: nat -> bool, id: nat)
    requires Heads(layout, created, ok) && (created != [] ==> created[|created| - 1] < id)
    requires 1 <= id <= MaxInterface(layout) && ok(id) && IsModuleOf(layout, id, id)
    ensures Heads(layout, created + [id], ok)
  {
  }

  /** create_modules; ok says whether gb_module_create succeeds for a module.  Every module is created exactly once,
      in increasing order, up to the first that cannot be created. */
  method CreateModules(layout: Layout, ok: nat -> bool) returns (ret: int, created: seq<nat>)
    ensures Heads(layout, created, ok)
    ensures ret == 0 || ret == EINVAL
    ensures ret == 0 ==> Covers(layout, created, MaxInterface(layout) + 1)
    ensures (ret == EINVAL ==>
             exists m: nat :: 1 <= m <= MaxInterface(layout) && FirstRefused(layout, created, ok, m))
  {
    created := [];
    var previous := 0;
    for i := 1 to MaxInterface(layout) + 1
      invariant Heads(layout, created, ok) && Covers(layout, created, i)
      invariant previous == if created == [] then 0 else created[|created| - 1]
      invariant i > 1 ==> created != [] && IsModuleOf(layout, i - 1, previous)
      invariant i == 1 ==> created == []
    {
      var id := GetModuleId(layout, i);
      if i > 1 {
        ModuleMonotone(layout, i - 1, i, previous, id);
      }
      if id == previous {
        CoversMore(layout, created, i, id, created);
        continue;
      }
      previous := id;
      ModuleIdempotent(layout, i, id);
      if !ok(id) {
        assert FirstRefused(layout, created, ok, i);
        return EINVAL, created;
      }
      HeadsSnoc(layout, created, ok, id);
      CoversMore(layout, created, i, id, created + [id]);
      created := created + [id];
    }
    return 0, created;
  }

  /** Every interface has a module. */
  function ModuleOf(layout: Layout, i: nat): (m: nat)
    requires i >= 1
    ensures IsModuleOf(layout, i, m)
  {
    if i == SideStart(layout, i) || RibAfter(layout, i - 1) then i else ModuleOf(layout, i - 1)
  }

  /** The back side that starts at interface start (left or right) has only modules of one or two interfaces. */
  ghost predicate LowModules(layout: Layout, start: nat) {
    forall i, m :: 1 <= start <= i < start + Height(layout) && IsModuleOf(layout, i, m) ==> i - m <= 1
  }

  function BackMask(layout: Layout, start: nat): Mask {
    if start == 1 then layout.left else layout.right
  }

  /** On the back, the rib after interface i is bit i - start of the side's mask. */
  lemma BackRib(layout: Layout, start: nat, i: nat)
    requires start == 1 || start == Height(layout) + 1
    requires start <= i < start + Height(layout)
    ensures SideStart(layout, i) == start
    ensures RibAfter(layout, i) == Bit(BackMask(layout, start), i - start)
  {
  }

  /** A side of the back has only modules of one or two interfaces exactly when its mask has no gap. */
  lemma BackHeights(layout: Layout, start: nat)
    requires start == 1 || start == Height(layout) + 1
    ensures LowModules(layout, start) <==> !HasGap(layout.maxRibs, BackMask(layout, start))
  {
    var mask := BackMask(layout, start);
    if HasGap(layout.maxRibs, mask) {
      var k :| 0 <= k < layout.maxRibs - 1 && !Bit(mask, k) && !Bit(mask, k + 1);
      TallModule(layout, start, start + k);
    } else {
      forall i: nat, m: nat | start <= i < start + Height(layout) && IsModuleOf(layout, i, m)
        ensures i - m <= 1
      {
        if i - m > 1 {
          BackRib(layout, start, i);
          BackRib(layout, start, m);
          BackRib(layout, start, m + 1);
          assert false;
        }
      }
    }
  }

  /** Two missing ribs after interface i make a module of at least three interfaces. */
  lemma TallModule(layout: Layout, start: nat, i: nat)
    requires start == 1 || start == Height(layout) + 1
    requires start <= i && i + 2 < start + Height(layout)
    requires !Bit(BackMask(layout, start), i - start) && !Bit(BackMask(layout, start), i + 1 - start)
    ensures !LowModules(layout, start)
  {
    BackRib(layout, start, i);
    BackRib(layout, start, i + 1);
    BackRib(layout, start, i + 2);
    var m := ModuleOf(layout, i + 2);
    assert m <= i;
  }

  /** An accepted endo has only modules of one or two units on its back, on the reversed side too. */
  lemma AcceptedBackIsLow(id: Mask, layout: Layout)
    requires 2 * layout.maxRibs <= |id| && SoundBack(id, layout.maxRibs)
    requires layout.left == LeftRibs(id, layout.maxRibs) && layout.right == Reversed(RightRibs(id, layout.maxRibs))
    ensures LowModules(layout, 1) && LowModules(layout, Height(layout) + 1)
  {
    GapEitherWay(RightRibs(id, layout.maxRibs));
    BackHeights(layout, 1);
    BackHeights(layout, Height(layout) + 1);
  }

  /** The size of the endo with this 16-bit id, or 0. */
  function RibsOf(id: Mask): nat
    requires |id| == 16
  {
    if id[12] then BACK_RIBS_LARGE
    else if id[10] then BACK_RIBS_MEDIUM
    else if id[8] then BACK_RIBS_MINI
    else 0
  }

  /** The size by the masks of endo.c: 0x1000 for large, then 0x400 for medium, then 0x100 for mini. */
  lemma SizeByMask(id: Mask)
    requires |id| == 16
    ensures var v := Value(id);
      RibsOf(id) ==
      if v / 0x1000 % 2 == 1 then 6 else if v / 0x400 % 2 == 1 then 5 else if v / 0x100 % 2 == 1 then 4 else 0
  {
    SomePowers();
    BitValue(id, 12);
    BitValue(id, 10);
    BitValue(id, 8);
  }

  /** The two masks of the back are the low bits of the id, and the bits above them. */
  lemma BackByMask(id: Mask, ribs: nat)
    requires 2 * ribs <= |id|
    ensures Value(LeftRibs(id, ribs)) == Value(id) / Pow2(ribs) % Pow2(ribs)
    ensures Value(RightRibs(id, ribs)) == Value(id) % Pow2(ribs)
  {
    LeftByMask(id, ribs);
    RightByMask(id, ribs);
  }

  lemma LeftByMask(id: Mask, ribs: nat)
    requires 2 * ribs <= |id|
    ensures Value(LeftRibs(id, ribs)) == Value(id) / Pow2(ribs) % Pow2(ribs)
  {
    ValueSlice(id, ribs, 2 * ribs);
  }

  lemma RightByMask(id: Mask, ribs: nat)
    requires 2 * ribs <= |id|
    ensures Value(RightRibs(id, ribs)) == Value(id) % Pow2(ribs)
  {
    ValueCut(id, ribs);
  }

  /** The code of the front is the id without its low 13 bits. */
  lemma FrontByMask(id: Mask)
    requires |id| == 16
    ensures Value(id[13..]) == Value(id) / 0x2000 < 8
  {
    SomePowers();
    ValueCut(id, 13);
    ValueAppend(id[13..], []);
  }

  /** validate_front_ribs. */
  function FrontRibs(code: nat, mini: bool): Mask {
    if code == 2 then [true]
    else if code == 3 then [false, false, true]
    else if code == 4 then if mini then [false, true] else [true, true]
    else if code == 5 then if mini then [false, true] else [false, true, true]
    else if code == 6 then [true, false, true]
    else []
  }

  /** The mask of the front, for each code and size. */
  lemma FrontValue(code: nat, mini: bool)
    requires 1 <= code <= 6
    ensures Value(FrontRibs(code, mini)) == [0, 0, 1, 4, if mini then 2 else 3, if mini then 2 else 6, 5][code]
  {
    var front := FrontRibs(code, mini);
    assert |front| >= 2 ==> Value(front[1..]) == (if front[1] then 1 else 0) + 2 * Value(front[2..]);
    assert |front| >= 3 ==> front[1..][1..] == front[2..];
  }

  /** The first interfaces of the modules on the front, counted from its top. */
  function FrontHeads(code: nat, mini: bool): set<nat> {
    if code == 1 then {0}
    else if code == 2 then {0, 1}
    else if code == 3 then {0, 3}
    else if code == 4 then if mini then {0, 2} else {0, 1, 2}
    else if code == 5 then if mini then {0, 2} else {0, 2, 3}
    else {0, 1, 3}
  }

  /** The modules of the four front interfaces begin where the code says. */
  lemma FrontModules(layout: Layout, code: nat, mini: bool, j: nat)
    requires 1 <= code <= 6 && layout.front == FrontRibs(code, mini) && j < 4
    ensures var i := 2 * Height(layout) + 1 + j;
      i <= MaxInterface(layout) && (IsModuleOf(layout, i, i) <==> j in FrontHeads(code, mini))
  {
  }

  /** gb_endo_validate_id.  An accepted id decodes to its own ribs, and to back modules of one or two units. */
  method ValidateId(id: Mask) returns (ret: int, layout: Layout)
    requires |id| == 16
    ensures ret == 0 || ret == EINVAL
    ensures (ret == 0 <==>
             && RibsOf(id) != 0 && SoundBack(id, RibsOf(id)) && Canonical(id, RibsOf(id))
             && 1 <= Value(id[13..]) <= 6)
    ensures ret == 0 ==> layout.maxRibs == RibsOf(id) && layout.left == LeftRibs(id, layout.maxRibs)
    ensures ret == 0 ==> Reversed(layout.right) == RightRibs(id, layout.maxRibs)
    ensures ret == 0 ==> layout.front == FrontRibs(Value(id[13..]), layout.maxRibs == BACK_RIBS_MINI)
    ensures ret == 0 ==> var v := Value(id); var r := layout.maxRibs; var mini := r == 4;
      && r == (if v / 0x1000 % 2 == 1 then 6 else if v / 0x400 % 2 == 1 then 5 else 4)
      && Value(layout.left) == v / Pow2(r) % Pow2(r) && Value(Reversed(layout.right)) == v % Pow2(r)
      && v / 0x2000 < 7
      && Value(layout.front) == [0, 0, 1, 4, if mini then 2 else 3, if mini then 2 else 6, 5][v / 0x2000]
    ensures ret == 0 ==> LowModules(layout, 1) && LowModules(layout, Height(layout) + 1)
  {
    layout := Layout([], [], [], RibsOf(id));
    if layout.maxRibs == 0 {
      return EINVAL, layout;
    }
    var ok, left, right := ValidateBackRibs(id, layout.maxRibs);
    if !ok {
      return EINVAL, layout;
    }
    layout := layout.(left := left, right := right);
    AcceptedBackIsLow(id, layout);
    ReversedTwice(RightRibs(id, layout.maxRibs));
    var code := Value(id[13..]);
    if !(1 <= code <= 6) {
      return EINVAL, layout;
    }
    SizeByMask(id);
    BackByMask(id, layout.maxRibs);
    FrontByMask(id);
    FrontValue(code, layout.maxRibs == BACK_RIBS_MINI);
    LowWithFront(layout, FrontRibs(code, layout.maxRibs == BACK_RIBS_MINI));
    layout := layout.(front := FrontRibs(code, layout.maxRibs == BACK_RIBS_MINI));
    return 0, layout;
  }

  lemma LowWithFront(layout: Layout, front: Mask)
    requires LowModules(layout, 1) && LowModules(layout, Height(layout) + 1)
    ensures LowModules(layout.(front := front), 1)
    ensures LowModules(layout.(front := front), Height(layout) + 1)
  {
    BackHeights(layout, 1);
    BackHeights(layout, Height(layout) + 1);
    BackHeights(layout.(front := front), 1);
    BackHeights(layout.(front := front), Height(layout) + 1);
  }
}

// catalog/vaillant/ab82_b525_spectrum_blocks.go: views of B525 spectrum blocks and their join.
module WordBits {
  function With(word: bv64, bit: bv64): bv64
  {
    word | bit
  }

  predicate Has(word: bv64, bit: bv64)
  {
    word & bit != 0
  }

  lemma KeepsLeft(x: bv64, y: bv64, z: bv64)
    requires Has(x, z)
    ensures Has(With(x, y), z)
  {}

  lemma KeepsRight(x: bv64, y: bv64, z: bv64)
    requires Has(y, z)
    ensures Has(With(x, y), z)
  {}

  lemma AddsNothing(x: bv64, y: bv64, z: bv64)
    requires !Has(x, z) && !Has(y, z)
    ensures !Has(With(x, y), z)
  {}

  lemma WithHas(x: bv64, y: bv64, z: bv64)
    ensures Has(With(x, y), z) <==> Has(x, z) || Has(y, z)
  {
    hide With, Has;
    if Has(x, z) {
      KeepsLeft(x, y, z);
    } else if Has(y, z) {
      KeepsRight(x, y, z);
    } else {
      AddsNothing(x, y, z);
    }
  }

  lemma ZeroHas(x: bv64)
    ensures !Has(0, x)
  {}

  lemma ShiftedBits(a: bv64, b: bv64)
    requires a < 64 && b < 64
    ensures ((1 as bv64) << a) & ((1 as bv64) << b) != 0 <==> a == b
  {}
}

module PresenceMask {
  import opened WordBits

  /** 256 presence bits in four words. */
  datatype Mask = Mask(w0: bv64, w1: bv64, w2: bv64, w3: bv64)

  const NO_BITS := Mask(0, 0, 0, 0)

  function Bit(i: nat): bv64
    requires i < 64
  {
    (1 as bv64) << i
  }

  function Word(m: Mask, w: nat): bv64
    requires w < 4
  {
    if w == 0 then m.w0 else if w == 1 then m.w1 else if w == 2 then m.w2 else m.w3
  }

  /** ab82SetMask */
  function SetBit(m: Mask, index: nat): Mask
    requires index < 256
  {
    var bit := Bit(index % 64);
    match index / 64
    case 0 => m.(w0 := With(m.w0, bit))
    case 1 => m.(w1 := With(m.w1, bit))
    case 2 => m.(w2 := With(m.w2, bit))
    case _ => m.(w3 := With(m.w3, bit))
  }

  /** Ab82Present */
  predicate Present(m: Mask, index: int)
  {
    0 <= index < 256 && Has(Word(m, index / 64), Bit(index % 64))
  }

  lemma BitsDiffer(i: nat, j: nat)
    requires i < 64 && j < 64
    ensures Has(Bit(i), Bit(j)) <==> i == j
  {
    ShiftedBits(i as bv64, j as bv64);
  }

  lemma WordOfSetBit(m: Mask, i: nat, w: nat)
    requires i < 256 && w < 4
    ensures Word(SetBit(m, i), w) == if w == i / 64 then With(Word(m, w), Bit(i % 64)) else Word(m, w)
  {
    hide Bit, With;
    assert w == 0 || w == 1 || w == 2 || w == 3;
    assert i / 64 == 0 || i / 64 == 1 || i / 64 == 2 || i / 64 == 3;
  }

  /** Setting a bit makes its index present and changes no other. */
  lemma SetBitPresent(m: Mask, i: nat, j: int)
    requires i < 256
    ensures Present(SetBit(m, i), j) <==> i == j || Present(m, j)
  {
    hide Bit, With, Has, SetBit, Word;
    if 0 <= j < 256 {
      WordOfSetBit(m, i, j / 64);
      if i / 64 == j / 64 {
        WithHas(Word(m, i / 64), Bit(i % 64), Bit(j % 64));
        BitsDiffer(i % 64, j % 64);
      }
    }
  }

  lemma NothingPresent(j: int)
    ensures !Present(NO_BITS, j)
  {
    hide Bit;
    if 0 <= j < 256 { ZeroHas(Bit(j % 64)); }
  }
}

module Spectrum {
  import opened PresenceMask

  newtype Byte = x: int | 0 <= x < 256

  const FIRST := 10
  const LAST := 17
  const BLOCK_LENGTH := 32

  datatype Context = Context(
    primary: Byte, secondary: Byte, family: string, variant: string, operation: int, direction: string, selector: int)

  datatype BlockState = Valid | Short | Extra | PrefixOnly | RawOnly

  datatype Entry = Entry(index: int, raw: Byte, signed: int)

  /** What a caller supplies of a block. */
  datatype Input = Input(context: Context, values: seq<Byte>)

  datatype Block = Block(
    context: Context, state: BlockState, start: int, raw: seq<Byte>, entries: seq<Entry>, mask: Mask,
    incomplete: bool, extra: bool, remainder: seq<Byte>)

  predicate KnownIdentity(c: Context)
  {
    c.primary == 0xB5 && c.secondary == 0x25 && c.family != "" && c.variant != "" && 0 <= c.operation <= 255
  }

  predicate KnownSelector(selector: int)
  {
    FIRST <= selector <= LAST
  }

  /** The blocks that are placed in the spectrum. */
  predicate Placed(c: Context)
  {
    KnownIdentity(c) && KnownSelector(c.selector) && c.direction == "request"
  }

  function Signed(b: Byte): int
  {
    if b < 128 then b as int else b as int - 256
  }

  function Start(selector: int): int
  {
    (selector - FIRST) * BLOCK_LENGTH
  }

  function Min(x: int, y: int): int
  {
    if x < y then x else y
  }

  function EntriesOf(selector: int, raw: seq<Byte>): (entries: seq<Entry>)
    ensures |entries| == Min(|raw|, BLOCK_LENGTH)
  {
    seq(Min(|raw|, BLOCK_LENGTH), i requires 0 <= i < Min(|raw|, BLOCK_LENGTH) =>
      Entry(Start(selector) + i, raw[i], Signed(raw[i])))
  }

  predicate InRange(entries: seq<Entry>)
  {
    forall i :: 0 <= i < |entries| ==> 0 <= entries[i].index < 256
  }

  function MaskOf(entries: seq<Entry>): Mask
    requires InRange(entries)
  {
    if entries == [] then NO_BITS else SetBit(MaskOf(entries[..|entries| - 1]), entries[|entries| - 1].index)
  }

  /** A mask shows exactly the indices of its entries. */
  lemma {:induction false} MaskShowsIndices(entries: seq<Entry>, j: int)
    requires InRange(entries)
    ensures Present(MaskOf(entries), j) <==> exists i :: 0 <= i < |entries| && entries[i].index == j
  {
    hide Present, SetBit;
    if entries == [] {
      NothingPresent(j);
    } else {
      var n := |entries| - 1;
      MaskShowsIndices(entries[..n], j);
      SetBitPresent(MaskOf(entries[..n]), entries[n].index, j);
      assert forall i :: 0 <= i < n ==> entries[..n][i] == entries[i];
      if exists i :: 0 <= i < |entries| && entries[i].index == j {
        var i :| 0 <= i < |entries| && entries[i].index == j;
        if i < n { assert entries[..n][i].index == j; }
      }
    }
  }

  // ---- one view --------------------------------------------------------------------

  function StateOf(input: Input): BlockState
  {
    var c := input.context;
    if !KnownIdentity(c) || !KnownSelector(c.selector) || (c.direction != "request" && c.direction != "positive") then RawOnly
    else if c.direction == "positive" then PrefixOnly
    else if |input.values| < BLOCK_LENGTH then Short
    else if |input.values| > BLOCK_LENGTH then Extra
    else Valid
  }

  lemma EntriesInRange(selector: int, raw: seq<Byte>)
    requires KnownSelector(selector)
    ensures InRange(EntriesOf(selector, raw))
  {}

  /** Ab82View */
  method View(input: Input) returns (block: Block)
    ensures block.context == input.context && block.raw == input.values && block.state == StateOf(input)
    ensures block.start == if Placed(input.context) then Start(input.context.selector) else -1
    ensures block.entries == if Placed(input.context) then EntriesOf(input.context.selector, input.values) else []
    ensures InRange(block.entries) && block.mask == MaskOf(block.entries)
    ensures block.incomplete <==> block.state == Short
    ensures block.extra <==> block.state == Extra
    ensures block.state == Extra ==> block.remainder == input.values[BLOCK_LENGTH..]
    ensures block.state != Extra ==> block.remainder == []
  {
    hide SetBit;
    block := Block(input.context, RawOnly, -1, input.values, [], NO_BITS, false, false, []);
    var context := input.context;
    if !KnownIdentity(context) || !KnownSelector(context.selector) ||
       (context.direction != "request" && context.direction != "positive")
    {
      return;
    }
    if context.direction == "positive" {
      block := block.(state := PrefixOnly);
      return;
    }
    var start := (context.selector - FIRST) * BLOCK_LENGTH;
    var count := |input.values|;
    if count > BLOCK_LENGTH {
      count := BLOCK_LENGTH;
    }
    var entries: seq<Entry>, mask := [], NO_BITS;
    for offset := 0 to count
      invariant entries == EntriesOf(context.selector, input.values)[..offset]
      invariant InRange(entries) && mask == MaskOf(entries)
    {
      var raw := input.values[offset];
      var entry := Entry(start + offset, raw, Signed(raw));
      mask := SetBit(mask, entry.index);
      assert (entries + [entry])[..|entries|] == entries;
      entries := entries + [entry];
    }
    block := block.(start := start, entries := entries, mask := mask);
    if |input.values| < BLOCK_LENGTH {
      block := block.(state := Short, incomplete := true);
    } else if |input.values| > BLOCK_LENGTH {
      block := block.(state := Extra, extra := true, remainder := input.values[BLOCK_LENGTH..]);
    } else {
      block := block.(state := Valid);
    }
  }

  // ---- what a set of blocks means -------------------------------------------------------

  datatype JoinKey = JoinKey(
    primary: Byte, secondary: Byte, family: string, variant: string, operation: int, direction: string)

  function KeyOf(c: Context): JoinKey
  {
    JoinKey(c.primary, c.secondary, c.family, c.variant, c.operation, c.direction)
  }

  ghost predicate PlacedIn(s: set<Input>, x: Input, selector: int)
  {
    x in s && Placed(x.context) && x.context.selector == selector
  }

  ghost predicate Mismatched(s: set<Input>)
  {
    exists x, y :: x in s && y in s && Placed(x.context) && Placed(y.context) && KeyOf(x.context) != KeyOf(y.context)
  }

  ghost predicate Seen(s: set<Input>, selector: int)
  {
    exists x :: PlacedIn(s, x, selector)
  }

  /** Two blocks of one selector disagree. */
  ghost predicate Conflicted(s: set<Input>, selector: int)
  {
    exists x, y :: PlacedIn(s, x, selector) && PlacedIn(s, y, selector) && x.values != y.values
  }

  ghost predicate Settled(s: set<Input>, selector: int)
  {
    Seen(s, selector) && !Conflicted(s, selector)
  }

  // The bytes all blocks of a settled selector agree on.
  ghost function RawOf(s: set<Input>, selector: int): seq<Byte>
    requires Seen(s, selector)
  {
    var x :| PlacedIn(s, x, selector);
    x.values
  }

  ghost function PartOf(s: set<Input>, selector: int): seq<Entry>
  {
    if Settled(s, selector) then EntriesOf(selector, RawOf(s, selector)) else []
  }

  ghost function EntriesBelow(s: set<Input>, selector: int): seq<Entry>
    decreases selector
  {
    if selector <= FIRST then [] else EntriesBelow(s, selector - 1) + PartOf(s, selector - 1)
  }

  ghost function ConflictsBelow(s: set<Input>, selector: int): seq<int>
    decreases selector
  {
    if selector <= FIRST then []
    else ConflictsBelow(s, selector - 1) + (if Conflicted(s, selector - 1) then [selector - 1] else [])
  }

  ghost function MissingBelow(s: set<Input>, selector: int): seq<int>
    decreases selector
  {
    if selector <= FIRST then []
    else MissingBelow(s, selector - 1) + (if Settled(s, selector - 1) then [] else [selector - 1])
  }

  ghost predicate Whole(s: set<Input>, selector: int)
  {
    Settled(s, selector) && |RawOf(s, selector)| == BLOCK_LENGTH
  }

  datatype JoinState = Empty | Partial | Conflict | ContextMismatch | Complete

  datatype JoinBlock = JoinBlock(selector: int, state: BlockState, contributed: bool, conflict: bool)

  datatype Joined = Joined(
    state: JoinState, complete: bool, blocks: seq<JoinBlock>, entries: seq<Entry>, mask: Mask, missing: seq<int>,
    conflicts: seq<int>)

  const END := 18

  const ALL_SELECTORS: seq<int> := [10, 11, 12, 13, 14, 15, 16, 17]

  /** The result of a join but for its per-block lines: a function of the set of blocks. */
  ghost predicate JoinOf(s: set<Input>, j: Joined)
  {
    InRange(j.entries) && j.mask == MaskOf(j.entries) && (j.complete <==> j.state == Complete) &&
    if Mismatched(s) then j.state == ContextMismatch && j.entries == [] && j.conflicts == [] && j.missing == ALL_SELECTORS
    else
      j.entries == EntriesBelow(s, END) && j.conflicts == ConflictsBelow(s, END) && j.missing == MissingBelow(s, END) &&
      j.state == (if j.conflicts != [] then Conflict
                  else if forall selector :: FIRST <= selector < END ==> Whole(s, selector) then Complete
                  else if j.entries != [] then Partial
                  else Empty)
  }

  ghost function Supplied(inputs: seq<Input>): set<Input>
  {
    set i | 0 <= i < |inputs| :: inputs[i]
  }

  /** Joins of the same blocks agree, in whatever order and however often the blocks are supplied. */
  lemma OrderAndRepetitionDoNotMatter(inputs: seq<Input>, inputs': seq<Input>, j: Joined, j': Joined)
    requires forall x :: x in inputs <==> x in inputs'
    requires JoinOf(Supplied(inputs), j) && JoinOf(Supplied(inputs'), j')
    ensures j' == j.(blocks := j'.blocks)
  {
    hide Mismatched, EntriesBelow, ConflictsBelow, MissingBelow, Whole, MaskOf;
    assert Supplied(inputs) == Supplied(inputs') by {
      assert forall x :: x in Supplied(inputs) <==> x in inputs;
      assert forall x :: x in Supplied(inputs') <==> x in inputs';
    }
  }

  // ---- what a join shows ------------------------------------------------------------------

  ghost predicate Ascending(entries: seq<Entry>, limit: int)
  {
    (forall i, j :: 0 <= i < j < |entries| ==> entries[i].index < entries[j].index) &&
    (forall i :: 0 <= i < |entries| ==> 0 <= entries[i].index < limit)
  }

  lemma {:induction false} EntriesAscend(s: set<Input>, selector: int)
    requires FIRST <= selector <= END
    ensures Ascending(EntriesBelow(s, selector), Start(selector))
    decreases selector
  {
    hide Settled, RawOf, PartOf;
    if selector > FIRST {
      EntriesAscend(s, selector - 1);
      PartIsAnInterval(s, selector - 1);
    }
  }

  lemma PartIsAnInterval(s: set<Input>, t: int)
    ensures |PartOf(s, t)| <= BLOCK_LENGTH
    ensures forall i :: 0 <= i < |PartOf(s, t)| ==> PartOf(s, t)[i].index == Start(t) + i
  {
    hide Settled, RawOf;
  }

  /** The entries of a join are strictly ascending, lie in the 256 indices, and are exactly what its mask shows. */
  lemma JoinAscends(s: set<Input>, j: Joined)
    requires JoinOf(s, j)
    ensures Ascending(j.entries, 256)
    ensures forall index :: Present(j.mask, index) <==> exists i :: 0 <= i < |j.entries| && j.entries[i].index == index
  {
    hide Mismatched, EntriesBelow, Present, MaskOf, Whole;
    EntriesAscend(s, END);
    forall index ensures Present(j.mask, index) <==> exists i :: 0 <= i < |j.entries| && j.entries[i].index == index {
      MaskShowsIndices(j.entries, index);
    }
  }

  lemma {:induction false} WholeCounts(s: set<Input>, selector: int)
    requires FIRST <= selector <= END && forall t :: FIRST <= t < selector ==> Whole(s, t)
    ensures |EntriesBelow(s, selector)| == Start(selector)
    decreases selector
  {
    hide Settled, RawOf, EntriesOf;
    if selector > FIRST {
      assert Whole(s, selector - 1);
      WholeCounts(s, selector - 1);
    }
  }

  lemma {:induction false} AscendingFills(entries: seq<Entry>, n: nat)
    requires Ascending(entries, |entries|) && n <= |entries|
    ensures forall i :: 0 <= i < n ==> entries[i].index >= i
  {
    if n > 0 {
      AscendingFills(entries, n - 1);
      if n > 1 { assert entries[n - 2].index < entries[n - 1].index; }
    }
  }

  lemma {:induction false} AscendingIsFull(entries: seq<Entry>, i: nat)
    requires Ascending(entries, |entries|) && i < |entries|
    ensures entries[i].index <= i
    decreases |entries| - i
  {
    if i + 1 < |entries| { AscendingIsFull(entries, i + 1); }
  }

  lemma {:induction false} NoConflictsBelow(s: set<Input>, selector: int)
    ensures ConflictsBelow(s, selector) == [] <==> forall t :: FIRST <= t < selector ==> !Conflicted(s, t)
    decreases selector
  {
    hide Conflicted;
    if selector > FIRST { NoConflictsBelow(s, selector - 1); }
  }

  /** A join is complete if and only if the placed blocks are of one context, agree selector by selector, and give
      each of the eight selectors exactly 32 bytes; every index 0 to 255 is then present once, in place. */
  lemma CompleteExactly(s: set<Input>, j: Joined)
    requires JoinOf(s, j)
    ensures j.complete <==> !Mismatched(s) && forall selector :: FIRST <= selector < END ==> Whole(s, selector)
    ensures j.complete ==> |j.entries| == 256 && forall i :: 0 <= i < 256 ==> j.entries[i].index == i
    ensures j.complete ==> j.missing == [] && j.conflicts == []
  {
    hide Mismatched, EntriesBelow, MaskOf, RawOf, Conflicted, MissingBelow, ConflictsBelow, Seen;
    NoConflictsBelow(s, END);
    if !Mismatched(s) && forall selector :: FIRST <= selector < END ==> Whole(s, selector) {
      assert forall t :: FIRST <= t < END ==> Whole(s, t) ==> !Conflicted(s, t);
      WholeCounts(s, END);
      EntriesAscend(s, END);
      AscendingFills(j.entries, 256);
      forall i | 0 <= i < 256 ensures j.entries[i].index == i { AscendingIsFull(j.entries, i); }
      NothingMissing(s, END);
    }
  }

  lemma {:induction false} NothingMissing(s: set<Input>, selector: int)
    requires forall t :: FIRST <= t < selector ==> Whole(s, t)
    ensures MissingBelow(s, selector) == []
    decreases selector
  {
    hide Settled, RawOf;
    if selector > FIRST {
      assert Whole(s, selector - 1);
      NothingMissing(s, selector - 1);
    }
  }

  /** The lists of a join say what they name: a selector is missing when no block of it is placed or two disagree,
      and conflicting when two disagree. */
  lemma {:induction false} ListsAreExact(s: set<Input>, selector: int, t: int)
    requires FIRST <= t
    ensures t in MissingBelow(s, selector) <==> t < selector && !Settled(s, t)
    ensures t in ConflictsBelow(s, selector) <==> t < selector && Conflicted(s, t)
    decreases selector
  {
    hide Settled, Conflicted;
    if selector > FIRST { ListsAreExact(s, selector - 1, t); }
  }

  lemma SettledAgrees(s: set<Input>, x: Input)
    requires x in s && Placed(x.context) && !Conflicted(s, x.context.selector)
    ensures Settled(s, x.context.selector) && RawOf(s, x.context.selector) == x.values
  {
    assert PlacedIn(s, x, x.context.selector);
  }

  // An entry of a settled selector: what every placed block of the selector has at its offset.
  ghost predicate WasSupplied(s: set<Input>, e: Entry)
  {
    var t := FIRST + e.index / BLOCK_LENGTH;
    0 <= e.index && Settled(s, t) && e.signed == Signed(e.raw) &&
    forall x :: PlacedIn(s, x, t) ==> e.index % BLOCK_LENGTH < |x.values| && x.values[e.index % BLOCK_LENGTH] == e.raw
  }

  lemma PartWasSupplied(s: set<Input>, t: int, k: nat)
    requires FIRST <= t && k < |PartOf(s, t)|
    ensures WasSupplied(s, PartOf(s, t)[k])
  {
    hide Conflicted, Seen, RawOf, Signed;
    var e := PartOf(s, t)[k];
    assert e.index == Start(t) + k && FIRST + e.index / BLOCK_LENGTH == t && e.index % BLOCK_LENGTH == k;
    forall x | PlacedIn(s, x, t) ensures RawOf(s, t) == x.values { SettledAgrees(s, x); }
  }

  /** Every joined byte is the byte that every placed block of its selector has at that offset. */
  lemma {:induction false} EntriesWereSupplied(s: set<Input>, selector: int)
    requires FIRST <= selector <= END
    ensures forall i :: 0 <= i < |EntriesBelow(s, selector)| ==> WasSupplied(s, EntriesBelow(s, selector)[i])
    decreases selector
  {
    hide PartOf, WasSupplied;
    if selector > FIRST {
      EntriesWereSupplied(s, selector - 1);
      var part := PartOf(s, selector - 1);
      forall k | 0 <= k < |part| ensures WasSupplied(s, part[k]) {
        PartWasSupplied(s, selector - 1, k);
      }
    }
  }

  // ---- the join --------------------------------------------------------------------------------

  ghost function InputsOf(supplied: seq<Block>): (inputs: seq<Input>)
    ensures |inputs| == |supplied|
  {
    seq(|supplied|, i requires 0 <= i < |supplied| => Input(supplied[i].context, supplied[i].raw))
  }

  ghost predicate ViewedAs(view: Block, x: Input)
  {
    view.context == x.context && view.raw == x.values && view.state == StateOf(x) &&
    view.start == (if Placed(x.context) then Start(x.context.selector) else -1) &&
    view.entries == (if Placed(x.context) then EntriesOf(x.context.selector, x.values) else [])
  }

  ghost predicate Viewed(views: seq<Block>, inputs: seq<Input>)
  {
    |views| == |inputs| && forall i :: 0 <= i < |views| ==> ViewedAs(views[i], inputs[i])
  }

  /** Ab82View of every supplied block, with its line in the result. */
  method ViewAll(supplied: seq<Block>) returns (views: seq<Block>, lines: seq<JoinBlock>)
    ensures Viewed(views, InputsOf(supplied))
    ensures |lines| == |views|
    ensures forall i :: 0 <= i < |lines| ==> lines[i] == JoinBlock(views[i].context.selector, views[i].state, false, false)
  {
    hide StateOf, EntriesOf, Placed;
    views, lines := [], [];
    for i := 0 to |supplied|
      invariant |views| == i && |lines| == i
      invariant forall j :: 0 <= j < i ==> ViewedAs(views[j], InputsOf(supplied)[j])
      invariant forall j :: 0 <= j < i ==> lines[j] == JoinBlock(views[j].context.selector, views[j].state, false, false)
    {
      var view := View(Input(supplied[i].context, supplied[i].raw));
      views := views + [view];
      lines := lines + [JoinBlock(supplied[i].context.selector, view.state, false, false)];
    }
  }

  ghost predicate PlacedAt(inputs: seq<Input>, i: int)
  {
    0 <= i < |inputs| && Placed(inputs[i].context)
  }

  ghost predicate MismatchUpTo(inputs: seq<Input>, n: int)
  {
    exists i, j :: 0 <= i < j < n && PlacedAt(inputs, i) && PlacedAt(inputs, j) && KeyOf(inputs[i].context) != KeyOf(inputs[j].context)
  }

  lemma MismatchOfAll(inputs: seq<Input>)
    ensures MismatchUpTo(inputs, |inputs|) <==> Mismatched(Supplied(inputs))
  {
    hide Placed, KeyOf;
    var s := Supplied(inputs);
    if MismatchUpTo(inputs, |inputs|) {
      var i, j :| 0 <= i < j < |inputs| && PlacedAt(inputs, i) && PlacedAt(inputs, j) && KeyOf(inputs[i].context) != KeyOf(inputs[j].context);
      assert inputs[i] in s && inputs[j] in s;
    }
    if Mismatched(s) {
      var x, y :| x in s && y in s && Placed(x.context) && Placed(y.context) && KeyOf(x.context) != KeyOf(y.context);
      var i :| 0 <= i < |inputs| && inputs[i] == x;
      var j :| 0 <= j < |inputs| && inputs[j] == y;
      assert PlacedAt(inputs, i) && PlacedAt(inputs, j);
      if i > j { assert 0 <= j < i; }
    }
  }

  /** Whether the placed blocks are of more than one context: each is compared with the first. */
  method FindMismatch(views: seq<Block>, ghost inputs: seq<Input>) returns (mismatch: bool)
    requires Viewed(views, inputs)
    ensures mismatch <==> Mismatched(Supplied(inputs))
  {
    hide Placed, StateOf, EntriesOf, KeyOf;
    MismatchOfAll(inputs);
    var key: JoinKey := KeyOf(Context(0, 0, "", "", 0, "", 0));
    var haveKey := false;
    mismatch := false;
    ghost var first := 0;
    for i := 0 to |views|
      invariant haveKey ==> 0 <= first < i && PlacedAt(inputs, first) && key == KeyOf(inputs[first].context)
      invariant forall j :: 0 <= j < i && PlacedAt(inputs, j) ==> haveKey && first <= j
      invariant mismatch ==> MismatchUpTo(inputs, |inputs|)
      invariant !mismatch ==> forall j :: 0 <= j < i && PlacedAt(inputs, j) ==> KeyOf(inputs[j].context) == key
    {
      assert ViewedAs(views[i], inputs[i]);
      PlacedStarts(views[i], inputs[i]);
      if views[i].start >= 0 {
        if !haveKey {
          key, haveKey := KeyOf(views[i].context), true;
          first := i;
        } else if KeyOf(views[i].context) != key {
          mismatch := true;
          assert PlacedAt(inputs, i);
        }
      }
    }
  }

  lemma PlacedStarts(view: Block, x: Input)
    requires ViewedAs(view, x)
    ensures view.start >= 0 <==> Placed(x.context)
  {}

  // The state of the pass that picks the first block of each selector and compares the others with it.
  ghost predicate PickedUpTo(inputs: seq<Input>, n: nat, chosen: map<int, nat>, conflicted: set<int>)
    requires n <= |inputs|
  {
    (forall t :: t in chosen ==>
       chosen[t] < n && Placed(inputs[chosen[t]].context) && inputs[chosen[t]].context.selector == t) &&
    (forall i :: 0 <= i < n && Placed(inputs[i].context) ==>
       inputs[i].context.selector in chosen && chosen[inputs[i].context.selector] <= i &&
       (inputs[i].context.selector !in conflicted ==> inputs[i].values == inputs[chosen[inputs[i].context.selector]].values)) &&
    (forall t :: t in conflicted ==>
       t in chosen && exists i :: 0 <= i < n && Placed(inputs[i].context) && inputs[i].context.selector == t &&
                                  inputs[i].values != inputs[chosen[t]].values)
  }

  /** The picking pass finds what the set of blocks means. */
  lemma PickedAll(inputs: seq<Input>, chosen: map<int, nat>, conflicted: set<int>, t: int)
    requires PickedUpTo(inputs, |inputs|, chosen, conflicted)
    ensures t in chosen <==> Seen(Supplied(inputs), t)
    ensures t in conflicted <==> Conflicted(Supplied(inputs), t)
    ensures t in chosen && t !in conflicted ==> RawOf(Supplied(inputs), t) == inputs[chosen[t]].values
    ensures t in chosen ==> KnownSelector(t)
  {
    hide KnownIdentity;
    var s := Supplied(inputs);
    if t in chosen {
      assert PlacedIn(s, inputs[chosen[t]], t);
    }
    forall x | PlacedIn(s, x, t) ensures t in chosen && (t !in conflicted ==> x.values == inputs[chosen[t]].values) {
      var i :| 0 <= i < |inputs| && inputs[i] == x;
    }
    if t in conflicted {
      var i :| 0 <= i < |inputs| && Placed(inputs[i].context) && inputs[i].context.selector == t &&
               inputs[i].values != inputs[chosen[t]].values;
      assert PlacedIn(s, inputs[i], t);
    }
  }

  method Pick(views: seq<Block>, ghost inputs: seq<Input>) returns (chosen: map<int, nat>, conflicted: set<int>)
    requires Viewed(views, inputs)
    ensures PickedUpTo(inputs, |inputs|, chosen, conflicted)
  {
    hide Placed, StateOf, EntriesOf;
    chosen, conflicted := map[], {};
    for i := 0 to |views|
      invariant PickedUpTo(inputs, i, chosen, conflicted)
    {
      assert ViewedAs(views[i], inputs[i]);
      PlacedStarts(views[i], inputs[i]);
      if views[i].start >= 0 {
        var selector := views[i].context.selector;
        if selector !in chosen {
          chosen := chosen[selector := i];
        } else {
          assert ViewedAs(views[chosen[selector]], inputs[chosen[selector]]);
          if views[chosen[selector]].raw != views[i].raw {
            conflicted := conflicted + {selector};
          }
        }
      }
    }
  }

  ghost predicate Sorted(selectors: seq<int>)
  {
    forall i, j :: 0 <= i < j < |selectors| ==> selectors[i] < selectors[j]
  }

  /** The selectors of the picked blocks in ascending order, read off the eight there are. */
  method SortedSelectors(chosen: map<int, nat>) returns (selectors: seq<int>)
    requires forall t :: t in chosen ==> KnownSelector(t)
    ensures Sorted(selectors) && forall t :: t in selectors <==> t in chosen
  {
    selectors := [];
    for t := FIRST to END
      invariant Sorted(selectors) && forall i :: 0 <= i < |selectors| ==> selectors[i] < t
      invariant forall u :: u in selectors <==> u in chosen && u < t
    {
      if t in chosen {
        selectors := selectors + [t];
      }
    }
  }

  // The part of a result that the pass over the sorted selectors builds, below a selector.
  ghost predicate GatheredBelow(s: set<Input>, t: int, conflicts: seq<int>, entries: seq<Entry>, mask: Mask, valid: int)
  {
    entries == EntriesBelow(s, t) && conflicts == ConflictsBelow(s, t) && InRange(entries) && mask == MaskOf(entries) &&
    0 <= valid <= t - FIRST && (valid == t - FIRST <==> forall u :: FIRST <= u < t ==> Whole(s, u))
  }

  lemma {:induction false} UnseenAddsNothing(s: set<Input>, t: int, u: int, conflicts: seq<int>, entries: seq<Entry>, mask: Mask, valid: int)
    requires FIRST <= t <= u && GatheredBelow(s, t, conflicts, entries, mask, valid)
    requires forall v :: t <= v < u ==> !Seen(s, v)
    ensures GatheredBelow(s, u, conflicts, entries, mask, valid)
    decreases u
  {
    hide Seen, MaskOf, RawOf;
    if t < u {
      UnseenAddsNothing(s, t, u - 1, conflicts, entries, mask, valid);
      assert !Seen(s, u - 1);
      UnseenIsUnconflicted(s, u - 1);
      assert !Whole(s, u - 1);
    }
  }

  lemma UnseenIsUnconflicted(s: set<Input>, t: int)
    ensures Conflicted(s, t) ==> Seen(s, t)
  {}

  lemma ConflictAdds(s: set<Input>, t: int, conflicts: seq<int>, entries: seq<Entry>, mask: Mask, valid: int)
    requires FIRST <= t && GatheredBelow(s, t, conflicts, entries, mask, valid) && Conflicted(s, t)
    ensures GatheredBelow(s, t + 1, conflicts + [t], entries, mask, valid)
  {
    hide Conflicted, Seen, MaskOf, RawOf;
    assert !Whole(s, t);
  }

  lemma PartAdds(s: set<Input>, t: int, conflicts: seq<int>, entries: seq<Entry>, mask: Mask, valid: int, more: seq<Entry>, mask': Mask)
    requires FIRST <= t && GatheredBelow(s, t, conflicts, entries, mask, valid) && Settled(s, t)
    requires more == EntriesOf(t, RawOf(s, t)) && InRange(entries + more) && mask' == MaskOf(entries + more)
    ensures GatheredBelow(s, t + 1, conflicts, entries + more, mask', if |RawOf(s, t)| == BLOCK_LENGTH then valid + 1 else valid)
  {
    hide Conflicted, Seen, MaskOf, RawOf, EntriesOf, InRange;
    assert Whole(s, t) <==> |RawOf(s, t)| == BLOCK_LENGTH;
  }

  /** Appends the entries of one block and sets their bits. */
  method AppendEntries(entries: seq<Entry>, mask: Mask, more: seq<Entry>) returns (entries': seq<Entry>, mask': Mask)
    requires InRange(entries) && InRange(more) && mask == MaskOf(entries)
    ensures entries' == entries + more && InRange(entries') && mask' == MaskOf(entries')
  {
    hide SetBit;
    entries', mask' := entries, mask;
    for i := 0 to |more|
      invariant entries' == entries + more[..i] && InRange(entries') && mask' == MaskOf(entries')
    {
      assert (entries' + [more[i]])[..|entries'|] == entries';
      entries' := entries' + [more[i]];
      mask' := SetBit(mask', more[i].index);
    }
  }

  method Gather(views: seq<Block>, chosen: map<int, nat>, conflicted: set<int>, ghost inputs: seq<Input>)
    returns (conflicts: seq<int>, entries: seq<Entry>, mask: Mask, valid: int)
    requires Viewed(views, inputs) && PickedUpTo(inputs, |inputs|, chosen, conflicted)
    ensures GatheredBelow(Supplied(inputs), END, conflicts, entries, mask, valid)
  {
    hide PickedUpTo, Supplied, RawOf, Seen, Conflicted, GatheredBelow, EntriesOf, Placed, StateOf, SetBit;
    ghost var s := Supplied(inputs);
    forall t | t in chosen ensures KnownSelector(t) { PickedAll(inputs, chosen, conflicted, t); }
    var selectors := SortedSelectors(chosen);
    conflicts, entries, mask, valid := [], [], NO_BITS, 0;
    NothingGathered(s);
    ghost var below := FIRST;
    forall i | 0 <= i < |selectors| ensures KnownSelector(selectors[i]) { assert selectors[i] in selectors; }
    for i := 0 to |selectors|
      invariant FIRST <= below <= END && (i < |selectors| ==> below <= selectors[i])
      invariant forall j :: i <= j < |selectors| ==> below <= selectors[j]
      invariant forall t :: below <= t && t in chosen ==> t in selectors[i..]
      invariant GatheredBelow(s, below, conflicts, entries, mask, valid)
    {
      var t := selectors[i];
      PickedAll(inputs, chosen, conflicted, t);
      ChosenView(views, inputs, chosen, conflicted, t);
      forall v | below <= v < t ensures !Seen(s, v) { PickedAll(inputs, chosen, conflicted, v); }
      UnseenAddsNothing(s, below, t, conflicts, entries, mask, valid);
      if t in conflicted {
        ConflictAdds(s, t, conflicts, entries, mask, valid);
        conflicts := conflicts + [t];
      } else {
        var item := views[chosen[t]];
        GatheredRange(s, t, conflicts, entries, mask, valid);
        EntriesInRange(t, RawOf(s, t));
        var entries', mask' := AppendEntries(entries, mask, item.entries);
        PartAdds(s, t, conflicts, entries, mask, valid, item.entries, mask');
        if item.state == Valid {
          valid := valid + 1;
        }
        entries, mask := entries', mask';
      }
      below := t + 1;
    }
    forall v | below <= v < END ensures !Seen(s, v) { PickedAll(inputs, chosen, conflicted, v); }
    UnseenAddsNothing(s, below, END, conflicts, entries, mask, valid);
  }

  lemma NothingGathered(s: set<Input>)
    ensures GatheredBelow(s, FIRST, [], [], NO_BITS, 0)
  {}

  lemma GatheredRange(s: set<Input>, t: int, conflicts: seq<int>, entries: seq<Entry>, mask: Mask, valid: int)
    requires GatheredBelow(s, t, conflicts, entries, mask, valid)
    ensures InRange(entries) && mask == MaskOf(entries)
  {}

  lemma ChosenView(views: seq<Block>, inputs: seq<Input>, chosen: map<int, nat>, conflicted: set<int>, t: int)
    requires Viewed(views, inputs) && PickedUpTo(inputs, |inputs|, chosen, conflicted) && t in chosen
    ensures chosen[t] < |views|
    ensures t !in conflicted ==>
      Settled(Supplied(inputs), t) &&
      views[chosen[t]].entries == EntriesOf(t, RawOf(Supplied(inputs), t)) &&
      (views[chosen[t]].state == Valid <==> |RawOf(Supplied(inputs), t)| == BLOCK_LENGTH)
  {
    hide Supplied, RawOf, Seen, Conflicted, EntriesOf;
    PickedAll(inputs, chosen, conflicted, t);
    assert ViewedAs(views[chosen[t]], inputs[chosen[t]]);
  }

  ghost predicate LinesOk(lines: seq<JoinBlock>, inputs: seq<Input>)
  {
    |lines| == |inputs| &&
    forall i :: 0 <= i < |lines| ==>
      lines[i].selector == inputs[i].context.selector && lines[i].state == StateOf(inputs[i]) &&
      (Mismatched(Supplied(inputs)) ==> !lines[i].conflict && !lines[i].contributed) &&
      (!Mismatched(Supplied(inputs)) ==>
         (lines[i].conflict <==> Placed(inputs[i].context) && Conflicted(Supplied(inputs), inputs[i].context.selector)) &&
         (lines[i].contributed <==>
            Placed(inputs[i].context) && !Conflicted(Supplied(inputs), inputs[i].context.selector) &&
            forall k :: 0 <= k < i && Placed(inputs[k].context) ==> inputs[k].context.selector != inputs[i].context.selector))
  }

  lemma FirstIsChosen(inputs: seq<Input>, chosen: map<int, nat>, conflicted: set<int>, i: nat)
    requires PickedUpTo(inputs, |inputs|, chosen, conflicted) && i < |inputs| && Placed(inputs[i].context)
    ensures inputs[i].context.selector in chosen
    ensures chosen[inputs[i].context.selector] == i <==>
      forall k :: 0 <= k < i && Placed(inputs[k].context) ==> inputs[k].context.selector != inputs[i].context.selector
  {
    hide Placed;
    var t := inputs[i].context.selector;
    if chosen[t] != i {
      assert 0 <= chosen[t] < i && Placed(inputs[chosen[t]].context);
    }
  }

  /** The lines of the supplied blocks: the first placed block of a settled selector contributes. */
  method MarkLines(lines: seq<JoinBlock>, views: seq<Block>, chosen: map<int, nat>, conflicted: set<int>, ghost inputs: seq<Input>)
    returns (marked: seq<JoinBlock>)
    requires Viewed(views, inputs) && PickedUpTo(inputs, |inputs|, chosen, conflicted) && !Mismatched(Supplied(inputs))
    requires |lines| == |views|
    requires forall i :: 0 <= i < |lines| ==> lines[i] == JoinBlock(views[i].context.selector, views[i].state, false, false)
    ensures LinesOk(marked, inputs)
  {
    hide PickedUpTo, Supplied, Mismatched, Conflicted, Seen, Placed, StateOf, EntriesOf;
    marked := lines;
    for i := 0 to |lines|
      invariant |marked| == |lines| && forall j :: i <= j < |lines| ==> marked[j] == lines[j]
      invariant forall j :: 0 <= j < i ==>
        marked[j].selector == inputs[j].context.selector && marked[j].state == StateOf(inputs[j]) &&
        (marked[j].conflict <==> Placed(inputs[j].context) && Conflicted(Supplied(inputs), inputs[j].context.selector)) &&
        (marked[j].contributed <==>
           Placed(inputs[j].context) && !Conflicted(Supplied(inputs), inputs[j].context.selector) &&
           forall k :: 0 <= k < j && Placed(inputs[k].context) ==> inputs[k].context.selector != inputs[j].context.selector)
    {
      assert ViewedAs(views[i], inputs[i]);
      PlacedStarts(views[i], inputs[i]);
      if views[i].start >= 0 {
        var selector := lines[i].selector;
        FirstIsChosen(inputs, chosen, conflicted, i);
        PickedAll(inputs, chosen, conflicted, selector);
        marked := marked[i := marked[i].(conflict := selector in conflicted,
                                         contributed := selector !in conflicted && chosen[selector] == i)];
      }
    }
  }

  method FindMissing(chosen: map<int, nat>, conflicted: set<int>, ghost inputs: seq<Input>) returns (missing: seq<int>)
    requires PickedUpTo(inputs, |inputs|, chosen, conflicted)
    ensures missing == MissingBelow(Supplied(inputs), END)
  {
    hide PickedUpTo, Supplied, Conflicted, Seen;
    missing := [];
    for selector := FIRST to END
      invariant missing == MissingBelow(Supplied(inputs), selector)
    {
      PickedAll(inputs, chosen, conflicted, selector);
      if selector !in chosen || selector in conflicted {
        missing := missing + [selector];
      }
    }
  }

  /** Ab82Join: what the set of supplied blocks means, with one line for each supplied block. */
  method Join(supplied: seq<Block>) returns (joined: Joined)
    ensures JoinOf(Supplied(InputsOf(supplied)), joined)
    ensures LinesOk(joined.blocks, InputsOf(supplied))
  {
    hide Viewed, Supplied, Mismatched, EntriesBelow, ConflictsBelow, MissingBelow, Whole, PickedUpTo, StateOf, Conflicted;
    ghost var inputs := InputsOf(supplied);
    var views, lines := ViewAll(supplied);
    var mismatch := FindMismatch(views, inputs);
    if mismatch {
      LinesOfMismatch(lines, views, inputs);
      return Joined(ContextMismatch, false, lines, [], NO_BITS, ALL_SELECTORS, []);
    }
    var chosen, conflicted := Pick(views, inputs);
    var conflicts, entries, mask, valid := Gather(views, chosen, conflicted, inputs);
    var marked := MarkLines(lines, views, chosen, conflicted, inputs);
    var missing := FindMissing(chosen, conflicted, inputs);
    var state := Empty;
    if |conflicts| > 0 {
      state := Conflict;
    } else if valid == LAST - FIRST + 1 {
      state := Complete;
    } else if |entries| > 0 {
      state := Partial;
    }
    joined := Joined(state, state == Complete, marked, entries, mask, missing, conflicts);
  }

  lemma LinesOfMismatch(lines: seq<JoinBlock>, views: seq<Block>, inputs: seq<Input>)
    requires Viewed(views, inputs) && Mismatched(Supplied(inputs)) && |lines| == |views|
    requires forall i :: 0 <= i < |lines| ==> lines[i] == JoinBlock(views[i].context.selector, views[i].state, false, false)
    ensures LinesOk(lines, inputs)
  {
    hide Supplied, Mismatched, Conflicted, Placed, StateOf, EntriesOf;
    forall i | 0 <= i < |lines| ensures lines[i].selector == inputs[i].context.selector && lines[i].state == StateOf(inputs[i]) {
      assert ViewedAs(views[i], inputs[i]);
    }
  }
}

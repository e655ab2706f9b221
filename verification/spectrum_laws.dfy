// What a join says, index by index and state by state, of the request blocks among those supplied.
module SpectrumLaws {
  import opened PresenceMask
  import opened Spectrum

  // ---- request blocks ---------------------------------------------------------------

  /** A block of the B525 spectrum as it is requested: the only kind that has a place. */
  ghost predicate RequestBlock(x: Input)
  {
    x.context.primary == 0xB5 && x.context.secondary == 0x25 && x.context.family != "" && x.context.variant != "" &&
    0 <= x.context.operation <= 255 && 10 <= x.context.selector <= 17 && x.context.direction == "request"
  }

  lemma RequestsArePlaced(x: Input)
    ensures Placed(x.context) <==> RequestBlock(x)
  {}

  ghost predicate Requested(s: set<Input>, x: Input, selector: int)
  {
    x in s && RequestBlock(x) && x.context.selector == selector
  }

  /** Two request blocks are of different devices or operations. */
  ghost predicate Strangers(s: set<Input>)
  {
    exists x, y :: x in s && y in s && RequestBlock(x) && RequestBlock(y) &&
      (x.context.family != y.context.family || x.context.variant != y.context.variant ||
       x.context.operation != y.context.operation)
  }

  /** Two request blocks of the selector differ. */
  ghost predicate Differ(s: set<Input>, selector: int)
  {
    exists x, y :: Requested(s, x, selector) && Requested(s, y, selector) && x.values != y.values
  }

  lemma StrangersMismatch(s: set<Input>)
    ensures Mismatched(s) <==> Strangers(s)
  {
    hide Placed;
    if Mismatched(s) {
      var x, y :| x in s && y in s && Placed(x.context) && Placed(y.context) && KeyOf(x.context) != KeyOf(y.context);
      RequestsArePlaced(x);
      RequestsArePlaced(y);
    }
    if Strangers(s) {
      var x, y :| x in s && y in s && RequestBlock(x) && RequestBlock(y) &&
        (x.context.family != y.context.family || x.context.variant != y.context.variant ||
         x.context.operation != y.context.operation);
      RequestsArePlaced(x);
      RequestsArePlaced(y);
      assert KeyOf(x.context) != KeyOf(y.context);
    }
  }

  lemma RequestedIs(s: set<Input>, x: Input, selector: int)
    ensures Requested(s, x, selector) <==> PlacedIn(s, x, selector)
  {
    RequestsArePlaced(x);
    hide Placed, RequestBlock;
  }

  lemma DifferConflict(s: set<Input>, selector: int)
    ensures Conflicted(s, selector) <==> Differ(s, selector)
  {
    hide PlacedIn, Requested;
    forall x ensures Requested(s, x, selector) <==> PlacedIn(s, x, selector) { RequestedIs(s, x, selector); }
  }

  // ---- entries -------------------------------------------------------------------------

  /** What a block gives for an index: its byte there, also read as a signed one. */
  ghost predicate Gives(x: Input, e: Spectrum.Entry)
  {
    0 <= e.index - 32 * (x.context.selector - 10) < 32 && e.index - 32 * (x.context.selector - 10) < |x.values| &&
    e.raw == x.values[e.index - 32 * (x.context.selector - 10)] &&
    (e.signed - e.raw as int) % 256 == 0 && -128 <= e.signed < 128
  }

  lemma EntriesGiven(x: Input, e: Spectrum.Entry)
    ensures e in EntriesOf(x.context.selector, x.values) <==> Gives(x, e)
  {
    var entries := EntriesOf(x.context.selector, x.values);
    var i := e.index - 32 * (x.context.selector - 10);
    if Gives(x, e) {
      SignedIs(e.raw, e.signed);
      assert entries[i] == e;
    }
    if e in entries {
      var k :| 0 <= k < |entries| && entries[k] == e;
      assert e.index == Start(x.context.selector) + k;
      SignedIs(e.raw, e.signed);
    }
  }

  lemma SignedIs(b: Byte, n: int)
    ensures (n - b as int) % 256 == 0 && -128 <= n < 128 <==> n == Signed(b)
  {}

  lemma PartHolds(s: set<Input>, t: int, e: Spectrum.Entry)
    ensures e in PartOf(s, t) <==> !Differ(s, t) && exists x :: Requested(s, x, t) && Gives(x, e)
  {
    hide Differ, Requested, Gives, EntriesOf, PlacedIn, RawOf;
    DifferConflict(s, t);
    forall x ensures Requested(s, x, t) <==> PlacedIn(s, x, t) { RequestedIs(s, x, t); }
    if Settled(s, t) {
      forall x | PlacedIn(s, x, t)
        ensures RawOf(s, t) == x.values && x.context.selector == t
        ensures e in EntriesOf(x.context.selector, x.values) <==> Gives(x, e)
      {
        PlacedAgrees(s, x, t);
        EntriesGiven(x, e);
      }
      var x :| PlacedIn(s, x, t);
    } else if !Differ(s, t) {
      assert !Seen(s, t);
    }
  }

  lemma PlacedAgrees(s: set<Input>, x: Input, t: int)
    requires PlacedIn(s, x, t) && !Conflicted(s, t)
    ensures RawOf(s, t) == x.values && x.context.selector == t
  {
    hide Conflicted, RawOf;
    SettledAgrees(s, x);
  }

  lemma {:induction false} BelowHolds(s: set<Input>, t: int, e: Spectrum.Entry)
    requires 10 <= t <= 18
    ensures e in EntriesBelow(s, t) <==> exists u :: 10 <= u < t && e in PartOf(s, u)
    decreases t
  {
    hide PartOf;
    if t > 10 {
      BelowHolds(s, t - 1, e);
      if e in EntriesBelow(s, t) && e !in EntriesBelow(s, t - 1) { assert e in PartOf(s, t - 1); }
    }
  }

  /** An entry is joined if and only if all request blocks are of one device and operation, no two of its selector differ,
      and one of them gives it. */
  lemma JoinHolds(s: set<Input>, j: Joined, e: Spectrum.Entry)
    requires JoinOf(s, j)
    ensures e in j.entries <==>
      !Strangers(s) && exists x :: x in s && RequestBlock(x) && !Differ(s, x.context.selector) && Gives(x, e)
  {
    hide EntriesBelow, ConflictsBelow, MissingBelow, Mismatched, Strangers, Differ, Gives, MaskOf, RequestBlock, PartOf, Whole;
    StrangersMismatch(s);
    BelowHolds(s, 18, e);
    forall u ensures e in PartOf(s, u) <==> !Differ(s, u) && exists x :: Requested(s, x, u) && Gives(x, e) { PartHolds(s, u, e); }
    forall x | RequestBlock(x) ensures 10 <= x.context.selector < 18 { RequestSelector(x); }
    if x :| x in s && RequestBlock(x) && !Differ(s, x.context.selector) && Gives(x, e) {
      assert Requested(s, x, x.context.selector);
      assert e in PartOf(s, x.context.selector);
    }
  }

  lemma RequestSelector(x: Input)
    requires RequestBlock(x)
    ensures 10 <= x.context.selector <= 17
  {}

  // ---- states ------------------------------------------------------------------------------

  /** Every selector has a request block, and each has its 32 bytes. */
  ghost predicate AllWhole(s: set<Input>)
  {
    forall t :: 10 <= t <= 17 ==> WholeRequest(s, t)
  }

  ghost predicate WholeRequest(s: set<Input>, t: int)
  {
    exists x :: Requested(s, x, t) && |x.values| == 32
  }

  lemma WholeIs(s: set<Input>, t: int)
    requires !Differ(s, t)
    ensures Whole(s, t) <==> WholeRequest(s, t)
  {
    hide Requested, Differ, RawOf, PlacedIn;
    DifferConflict(s, t);
    forall x ensures Requested(s, x, t) <==> PlacedIn(s, x, t) { RequestedIs(s, x, t); }
    if Seen(s, t) {
      forall x | PlacedIn(s, x, t) ensures RawOf(s, t) == x.values { PlacedAgrees(s, x, t); }
    }
  }

  /** The state of a join: blocks of different contexts, else blocks that differ, else everything, something or nothing. */
  lemma JoinStates(s: set<Input>, j: Joined)
    requires JoinOf(s, j)
    ensures j.complete <==> j.state == Complete
    ensures j.state == ContextMismatch <==> Strangers(s)
    ensures j.state == Conflict <==> !Strangers(s) && exists t :: 10 <= t <= 17 && Differ(s, t)
    ensures j.state == Complete <==> !Strangers(s) && (forall t :: 10 <= t <= 17 ==> !Differ(s, t)) && AllWhole(s)
    ensures j.state == Partial <==>
      !Strangers(s) && (forall t :: 10 <= t <= 17 ==> !Differ(s, t)) && !AllWhole(s) && j.entries != []
  {
    hide EntriesBelow, ConflictsBelow, MissingBelow, Mismatched, Strangers, Differ, Whole, MaskOf, WholeRequest;
    StrangersMismatch(s);
    NoConflictsBelow(s, 18);
    forall t ensures Conflicted(s, t) <==> Differ(s, t) { DifferConflict(s, t); }
    if forall t :: 10 <= t <= 17 ==> !Differ(s, t) {
      forall t | 10 <= t <= 17 ensures Whole(s, t) <==> WholeRequest(s, t) { WholeIs(s, t); }
    }
  }

  // ---- views ------------------------------------------------------------------------------------

  /** The kind of a block by its context and length. */
  lemma ViewStates(x: Input)
    ensures var ours := x.context.primary == 0xB5 && x.context.secondary == 0x25 && x.context.family != "" &&
        x.context.variant != "" && 0 <= x.context.operation <= 255 && 10 <= x.context.selector <= 17;
      (StateOf(x) == PrefixOnly <==> ours && x.context.direction == "positive") &&
      (StateOf(x) == Short <==> ours && x.context.direction == "request" && |x.values| < 32) &&
      (StateOf(x) == Valid <==> ours && x.context.direction == "request" && |x.values| == 32) &&
      (StateOf(x) == Extra <==> ours && x.context.direction == "request" && |x.values| > 32)
  {}
}

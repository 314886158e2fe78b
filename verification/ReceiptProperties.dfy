/** A Merkle root binds the entries under it: whatever a proof claims was really recorded,
    unless two different inputs that were actually hashed share a digest. */
module ReceiptProperties {
  import opened Wrappers
  import opened Receipt
  import opened Text
  import opened Hex
  import opened EntryOrder
  import opened Decimal

  /** No two different inputs among these have one digest. Asked only of what was hashed: over
      all inputs it would be false of every function with 32-byte results. */
  ghost predicate CollisionFree(H: Hash, inputs: seq<Bytes>) {
    forall x, y :: x in inputs && y in inputs && H(x) == H(y) ==> x == y
  }

  /** Two different inputs among these have one digest. */
  ghost predicate Collides(H: Hash, inputs: seq<Bytes>) {
    exists x, y :: x in inputs && y in inputs && x != y && H(x) == H(y)
  }

  function LeafInputs(entries: seq<ReceiptEntry>): (inputs: seq<Bytes>)
    ensures |inputs| == |entries| && forall i :: 0 <= i < |entries| ==> inputs[i] == LeafInput(entries[i])
  {
    if entries == [] then [] else [LeafInput(entries[0])] + LeafInputs(entries[1..])
  }

  /** Everything hashed to build the root of these entries. */
  function RootInputs(H: Hash, leq: Order, entries: seq<ReceiptEntry>): seq<Bytes> {
    var sorted := SortEntries(leq, entries);
    LeafInputs(sorted) + TreeInputs(H, Leaves(H, sorted))
  }

  /** Everything hashed to check a proof. */
  function CheckInputs(H: Hash, proof: EntryProof): seq<Bytes> {
    [LeafInput(Claimed(proof))] + ClimbInputs(H, LeafHash(H, Claimed(proof)), proof.path)
  }

  // ---- nothing hashed can be read two ways -----------------------------------------

  lemma AsciiIsUnique(a: string, b: string)
    requires forall i :: 0 <= i < |a| ==> a[i] < 128 as char
    requires forall i :: 0 <= i < |b| ==> b[i] < 128 as char
    requires Ascii(a) == Ascii(b)
    ensures a == b
  {
    assert |a| == |Ascii(a)| == |b|;
    forall i | 0 <= i < |a|
      ensures a[i] == b[i]
    {
      assert a[i] as int == Ascii(a)[i] == b[i] as int;
    }
  }

  /** The last bar is where the amount starts, whatever bytes the account has. */
  lemma LastBarDecides(a: Bytes, x: Bytes, b: Bytes, y: Bytes)
    requires BAR !in x && BAR !in y
    requires a + [BAR] + x == b + [BAR] + y
    ensures a == b && x == y
  {
    BarIsNotLater(a, x, b, y);
    BarIsNotLater(b, y, a, x);
    var whole := a + [BAR] + x;
    assert a == whole[..|a|] && b == whole[..|a|];
    assert x == whole[|a| + 1..] && y == whole[|a| + 1..];
  }

  lemma BarIsNotLater(a: Bytes, x: Bytes, b: Bytes, y: Bytes)
    requires BAR !in x && a + [BAR] + x == b + [BAR] + y
    ensures |b| <= |a|
  {
    var whole := a + [BAR] + x;
    forall k | |a| < k < |whole|
      ensures whole[k] != BAR
    {
      assert whole[k] == x[k - |a| - 1];
    }
    assert (b + [BAR] + y)[|b|] == BAR;
  }

  lemma LeafInputIsUnique(e: ReceiptEntry, f: ReceiptEntry)
    requires LeafInput(e) == LeafInput(f)
    ensures e == f
  {
    assert LeafInput(e)[1..] == LeafContent(e) && LeafInput(f)[1..] == LeafContent(f);
    LastBarDecides(e.accountId, AmountBytes(e.amount), f.accountId, AmountBytes(f.amount));
    assert forall i :: 0 <= i < |e.amount| ==> IsNumberChar(e.amount[i]);
    assert forall i :: 0 <= i < |f.amount| ==> IsNumberChar(f.amount[i]);
    AsciiIsUnique(e.amount, f.amount);
  }

  lemma NodeInputIsUnique(l: Digest, r: Digest, m: Digest, s: Digest)
    requires NodeInput(l, r) == NodeInput(m, s)
    ensures l == m && r == s
  {
    assert NodeInput(l, r)[1..33] == l && NodeInput(m, s)[1..33] == m;
    assert NodeInput(l, r)[33..] == r && NodeInput(m, s)[33..] == s;
  }

  lemma LeafIsNotNode(e: ReceiptEntry, l: Digest, r: Digest)
    ensures LeafInput(e) != NodeInput(l, r)
  {
    assert LeafInput(e)[0] == LEAF_TAG && NodeInput(l, r)[0] == NODE_TAG;
  }

  // ---- soundness -----------------------------------------------------------------------

  /** The last step of a climb: what it hashed, and that it hashed it. */
  lemma LastStep(H: Hash, leaf: Digest, path: seq<ProofStep>) returns (l: Digest, r: Digest)
    requires path != [] && Climb(H, leaf, path).Some?
    ensures Climb(H, leaf, path) == Some(HashNode(H, l, r))
    ensures NodeInput(l, r) in ClimbInputs(H, leaf, path)
    ensures var before := Climb(H, leaf, path[..|path| - 1]);
            before.Some? && (before.value == l || before.value == r)
  {
    hide FromHex;
    var last := path[|path| - 1];
    var before := Climb(H, leaf, path[..|path| - 1]).value;
    var sibling: Digest := FromHex(last.hash);
    l, r := if last.right then before else sibling, if last.right then sibling else before;
    assert JoinInput(before, sibling, last.right) == NodeInput(l, r);
  }

  lemma {:induction false} PrefixInputs(H: Hash, leaf: Digest, path: seq<ProofStep>, n: nat)
    requires n <= |path|
    ensures forall x :: x in ClimbInputs(H, leaf, path[..n]) ==> x in ClimbInputs(H, leaf, path)
  {
    if n == |path| {
      assert path[..n] == path;
    } else {
      assert path[..|path| - 1][..n] == path[..n];
      PrefixInputs(H, leaf, path[..|path| - 1], n);
    }
  }

  /** A node one level up was made from two of these nodes. */
  lemma AboveComesFrom(H: Hash, nodes: seq<Digest>, d: Digest) returns (l: Digest, r: Digest)
    requires |nodes| > 1 && d in Above(H, nodes)
    ensures l in nodes && r in nodes && d == HashNode(H, l, r) && NodeInput(l, r) in TreeInputs(H, nodes)
  {
    var k: nat :| k < |Above(H, nodes)| && Above(H, nodes)[k] == d;
    l, r := nodes[2 * k], PairedWith(nodes, 2 * k);
    assert PairInputs(nodes)[k] in PairInputs(nodes);
  }

  /** If a climb from an entry's leaf ends at the root of some nodes, it passed through one of
      them: level by level, the step that made the node above came from a node below. */
  lemma {:induction false} ClimbPassesThrough(
    H: Hash, nodes: seq<Digest>, e: ReceiptEntry, path: seq<ProofStep>, inputs: seq<Bytes>) returns (n: nat)
    requires nodes != [] && Climb(H, LeafHash(H, e), path) == Some(RootOf(H, nodes))
    requires CollisionFree(H, inputs) && LeafInput(e) in inputs
    requires forall x :: x in ClimbInputs(H, LeafHash(H, e), path) ==> x in inputs
    requires forall x :: x in TreeInputs(H, nodes) ==> x in inputs
    ensures n <= |path|
    ensures var reached := Climb(H, LeafHash(H, e), path[..n]); reached.Some? && reached.value in nodes
    decreases |nodes|
  {
    hide FromHex, LeafInput, NodeInput, ClimbInputs;
    if |nodes| == 1 {
      n := |path|;
      assert path[..n] == path;
    } else {
      var above := Above(H, nodes);
      assert forall x :: x in TreeInputs(H, above) ==> x in TreeInputs(H, nodes);
      var m := ClimbPassesThrough(H, above, e, path, inputs);
      n := StepBelow(H, nodes, e, path, inputs, m);
    }
  }

  lemma StepBelow(
    H: Hash, nodes: seq<Digest>, e: ReceiptEntry, path: seq<ProofStep>, inputs: seq<Bytes>, m: nat)
    returns (n: nat)
    requires |nodes| > 1 && m <= |path|
    requires var reached := Climb(H, LeafHash(H, e), path[..m]); reached.Some? && reached.value in Above(H, nodes)
    requires CollisionFree(H, inputs) && LeafInput(e) in inputs
    requires forall x :: x in ClimbInputs(H, LeafHash(H, e), path) ==> x in inputs
    requires forall x :: x in TreeInputs(H, nodes) ==> x in inputs
    ensures n <= |path|
    ensures var reached := Climb(H, LeafHash(H, e), path[..n]); reached.Some? && reached.value in nodes
  {
    hide FromHex, LeafInput, NodeInput, TreeInputs, ClimbInputs, Above;
    var leaf := LeafHash(H, e);
    var walked := path[..m];
    var l, r := AboveComesFrom(H, nodes, Climb(H, leaf, walked).value);
    if m == 0 {
      n := 0;
      LeafIsNotNode(e, l, r);
    } else {
      var s, t := LastStep(H, leaf, walked);
      PrefixInputs(H, leaf, path, m);
      NodeInputIsUnique(l, r, s, t);
      n := m - 1;
      assert walked[..|walked| - 1] == path[..n];
    }
  }

  /** Being accepted against a root is climbing to it. */
  lemma AcceptedIffItClimbs(H: Hash, proof: EntryProof, root: Digest)
    requires proof.commitment == ToHex(root)
    ensures Accepts(H, proof) <==> EndOf(H, proof) == Some(root)
  {
    hide ToHex, Climb, LeafHash;
    if Accepts(H, proof) {
      HexIsUnique(EndOf(H, proof).value, root);
    }
  }

  lemma ClimbEndsAtEntry(H: Hash, leq: Order, entries: seq<ReceiptEntry>, proof: EntryProof)
    requires entries != [] && EndOf(H, proof) == Some(Root(H, leq, entries))
    requires CollisionFree(H, RootInputs(H, leq, entries) + CheckInputs(H, proof))
    ensures Claimed(proof) in entries
  {
    hide TreeInputs, ClimbInputs, LeafInput, NodeInput, FromHex, SortEntries;
    var inputs := RootInputs(H, leq, entries) + CheckInputs(H, proof);
    var sorted, e := SortEntries(leq, entries), Claimed(proof);
    SortShape(leq, entries);
    var leaf, leaves := LeafHash(H, e), Leaves(H, sorted);
    var n := ClimbPassesThrough(H, leaves, e, proof.path, inputs);
    var i :| 0 <= i < |leaves| && leaves[i] == Climb(H, leaf, proof.path[..n]).value;
    assert LeafInputs(sorted)[i] in inputs;
    if n == 0 {
      LeafInputIsUnique(e, sorted[i]);
    } else {
      var l, r := LastStep(H, leaf, proof.path[..n]);
      PrefixInputs(H, leaf, proof.path, n);
      LeafIsNotNode(sorted[i], l, r);
      assert false;
    }
    assert sorted[i] in entries;
  }

  /** Whatever a proof of any length claims, if it climbs to the root of these entries then the
      claimed account and amount are an entry, or checking it and building the root hashed two
      different inputs to one digest. */
  lemma RootBinds(H: Hash, leq: Order, entries: seq<ReceiptEntry>, proof: EntryProof)
    requires entries != [] && EndOf(H, proof) == Some(Root(H, leq, entries))
    ensures Claimed(proof) in entries || Collides(H, RootInputs(H, leq, entries) + CheckInputs(H, proof))
  {
    hide RootInputs, CheckInputs, Root, EndOf;
    if !Collides(H, RootInputs(H, leq, entries) + CheckInputs(H, proof)) {
      ClimbEndsAtEntry(H, leq, entries, proof);
    }
  }

  /** No account can prove two amounts under one root, short of a collision. */
  lemma OneAmountPerAccount(H: Hash, leq: Order, entries: seq<ReceiptEntry>, p: EntryProof, q: EntryProof)
    requires entries != [] && DistinctAccounts(entries) && p.accountId == q.accountId
    requires EndOf(H, p) == EndOf(H, q) == Some(Root(H, leq, entries))
    ensures p.amount == q.amount
         || Collides(H, RootInputs(H, leq, entries) + CheckInputs(H, p))
         || Collides(H, RootInputs(H, leq, entries) + CheckInputs(H, q))
  {
    hide RootInputs, CheckInputs, Root, EndOf, Collides;
    RootBinds(H, leq, entries, p);
    RootBinds(H, leq, entries, q);
  }

  // ---- one root, one set of entries -------------------------------------------------------

  /** The proof read off the tree at one place, as `proofFor` builds it. */
  function ProofAt(H: Hash, leq: Order, entries: seq<ReceiptEntry>, i: nat): EntryProof
    requires i < |SortEntries(leq, entries)|
  {
    var sorted := SortEntries(leq, entries);
    EntryProof(0, sorted[i].accountId, sorted[i].amount, PathFrom(H, Leaves(H, sorted), i),
               ToHex(RootOf(H, Leaves(H, sorted))))
  }

  /** Every entry has an accepted proof, and checking it hashes nothing building the root did not. */
  lemma EveryEntryIsProvable(H: Hash, leq: Order, entries: seq<ReceiptEntry>, e: ReceiptEntry)
    returns (proof: EntryProof)
    requires e in entries
    ensures Claimed(proof) == e && EndOf(H, proof) == Some(Root(H, leq, entries))
    ensures Accepts(H, proof) && proof.commitment == ToHex(Root(H, leq, entries))
    ensures forall x :: x in CheckInputs(H, proof) ==> x in RootInputs(H, leq, entries)
  {
    hide TreeInputs, ClimbInputs, LeafInput, FromHex, ToHex, SortEntries;
    SortShape(leq, entries);
    var sorted := SortEntries(leq, entries);
    var i: nat :| i < |sorted| && sorted[i] == e;
    proof := ProofAt(H, leq, entries, i);
    PathReachesRoot(H, Leaves(H, sorted), i);
    assert LeafInputs(sorted)[i] == LeafInput(e);
  }

  lemma SameRootIncludes(H: Hash, leq: Order, a: seq<ReceiptEntry>, b: seq<ReceiptEntry>)
    requires a != [] && b != [] && Root(H, leq, a) == Root(H, leq, b)
    requires CollisionFree(H, RootInputs(H, leq, a) + RootInputs(H, leq, b))
    ensures forall e :: e in a ==> e in b
  {
    hide Root, RootInputs, CheckInputs, EndOf;
    forall e | e in a
      ensures e in b
    {
      var proof := EveryEntryIsProvable(H, leq, a, e);
      ClimbEndsAtEntry(H, leq, b, proof);
    }
  }

  /** Two rounds commit to one root exactly when they paid the same accounts the same amounts,
      in whatever order they were listed, if no two of the ids compare as equal. */
  lemma SameRootIffSameEntries(H: Hash, leq: Order, a: seq<ReceiptEntry>, b: seq<ReceiptEntry>)
    requires Collation(leq) && NoTies(leq, a)
    requires a != [] && b != [] && DistinctAccounts(a) && DistinctAccounts(b)
    requires CollisionFree(H, RootInputs(H, leq, a) + RootInputs(H, leq, b))
    ensures Root(H, leq, a) == Root(H, leq, b) <==> SameEntries(a, b)
  {
    if Root(H, leq, a) == Root(H, leq, b) {
      SameRootIncludes(H, leq, a, b);
      assert CollisionFree(H, RootInputs(H, leq, b) + RootInputs(H, leq, a));
      SameRootIncludes(H, leq, b, a);
    }
    if SameEntries(a, b) {
      SortForgetsOrder(leq, a, b);
    }
  }

  // ---- one root, one list -------------------------------------------------------------------

  lemma PairIsOneToOne(H: Hash, x: seq<Digest>, y: seq<Digest>, inputs: seq<Bytes>, k: nat)
    requires |x| == |y| && k < |Above(H, x)| && Above(H, x)[k] == Above(H, y)[k] && CollisionFree(H, inputs)
    requires forall i :: i in PairInputs(x) || i in PairInputs(y) ==> i in inputs
    ensures x[2 * k] == y[2 * k] && PairedWith(x, 2 * k) == PairedWith(y, 2 * k)
  {
    hide NodeInput;
    assert PairInputs(x)[k] in inputs && PairInputs(y)[k] in inputs;
    NodeInputIsUnique(x[2 * k], PairedWith(x, 2 * k), y[2 * k], PairedWith(y, 2 * k));
  }

  lemma AboveIsOneToOne(H: Hash, x: seq<Digest>, y: seq<Digest>, inputs: seq<Bytes>)
    requires |x| == |y| > 1 && Above(H, x) == Above(H, y) && CollisionFree(H, inputs)
    requires forall i :: i in PairInputs(x) || i in PairInputs(y) ==> i in inputs
    ensures x == y
  {
    hide CollisionFree;
    forall i | 0 <= i < |x|
      ensures x[i] == y[i]
    {
      PairIsOneToOne(H, x, y, inputs, i / 2);
    }
  }

  /** Of as many leaves, only the same ones in the same order have the same root. */
  lemma {:induction false} TreeIsOneToOne(H: Hash, x: seq<Digest>, y: seq<Digest>, inputs: seq<Bytes>)
    requires |x| == |y| > 0 && RootOf(H, x) == RootOf(H, y) && CollisionFree(H, inputs)
    requires forall i :: i in TreeInputs(H, x) || i in TreeInputs(H, y) ==> i in inputs
    ensures x == y
    decreases |x|
  {
    if |x| > 1 {
      hide CollisionFree, NodeInput, PairedWith;
      assert forall i :: i in PairInputs(x) ==> i in TreeInputs(H, x);
      assert forall i :: i in PairInputs(y) ==> i in TreeInputs(H, y);
      assert forall i :: i in TreeInputs(H, Above(H, x)) ==> i in TreeInputs(H, x);
      assert forall i :: i in TreeInputs(H, Above(H, y)) ==> i in TreeInputs(H, y);
      TreeIsOneToOne(H, Above(H, x), Above(H, y), inputs);
      AboveIsOneToOne(H, x, y, inputs);
    }
  }

  lemma LeavesAreOneToOne(H: Hash, a: seq<ReceiptEntry>, b: seq<ReceiptEntry>, inputs: seq<Bytes>)
    requires Leaves(H, a) == Leaves(H, b) && CollisionFree(H, inputs)
    requires forall i :: i in LeafInputs(a) || i in LeafInputs(b) ==> i in inputs
    ensures a == b
  {
    hide LeafInput;
    forall k | 0 <= k < |a|
      ensures |a| == |b| && a[k] == b[k]
    {
      assert |a| == |Leaves(H, a)| == |b|;
      assert LeafInputs(a)[k] in inputs && LeafInputs(b)[k] in inputs;
      assert Leaves(H, a)[k] == Leaves(H, b)[k];
      LeafInputIsUnique(a[k], b[k]);
    }
    assert |a| == |Leaves(H, a)| == |b|;
  }

  /** As many entries have one root exactly when they sort to one list, repeated accounts or not. */
  lemma SameRootIffSameList(H: Hash, leq: Order, a: seq<ReceiptEntry>, b: seq<ReceiptEntry>)
    requires |a| == |b| > 0 && CollisionFree(H, RootInputs(H, leq, a) + RootInputs(H, leq, b))
    ensures Root(H, leq, a) == Root(H, leq, b) <==> SortEntries(leq, a) == SortEntries(leq, b)
  {
    hide SortEntries, TreeInputs, RootOf, CollisionFree, LeafInput, SameEntries;
    if Root(H, leq, a) == Root(H, leq, b) {
      SortShape(leq, a);
      SortShape(leq, b);
      var inputs := RootInputs(H, leq, a) + RootInputs(H, leq, b);
      var x, y := SortEntries(leq, a), SortEntries(leq, b);
      TreeIsOneToOne(H, Leaves(H, x), Leaves(H, y), inputs);
      LeavesAreOneToOne(H, x, y, inputs);
    }
  }

  /** Where two ids compare as equal, the same entries in another order have another root, short of a
      collision. */
  lemma TieShowsInRoot(H: Hash, leq: Order, a: seq<ReceiptEntry>, i: nat, j: nat) returns (b: seq<ReceiptEntry>)
    requires DistinctAccounts(a) && i < j < |a| && Tie(leq, a[i].accountId, a[j].accountId)
    ensures b != [] && DistinctAccounts(b) && SameEntries(a, b)
    ensures Root(H, leq, a) != Root(H, leq, b) || Collides(H, RootInputs(H, leq, a) + RootInputs(H, leq, b))
  {
    hide SortEntries, RootInputs, Root;
    b := TieShows(leq, a, i, j);
    assert a[i] in b;
    if !Collides(H, RootInputs(H, leq, a) + RootInputs(H, leq, b)) {
      SameRootIffSameList(H, leq, a, b);
    }
  }

  lemma {:induction false} SortOfSorted(leq: Order, entries: seq<ReceiptEntry>)
    requires Sorted(leq, entries)
    ensures SortEntries(leq, entries) == entries
  {
    if entries != [] {
      SortOfSorted(leq, entries[1..]);
    }
  }

  /** Distinct accounts are needed: with an odd number of entries, three or more, listing the
      last one again changes nothing under any hash, because it is paired with itself anyway. */
  lemma RepeatedLastEntryIsInvisible(H: Hash, leq: Order, entries: seq<ReceiptEntry>)
    requires Collation(leq) && Sorted(leq, entries) && |entries| % 2 == 1 && |entries| > 1
    ensures Root(H, leq, entries) == Root(H, leq, entries + [entries[|entries| - 1]])
  {
    hide LeafHash, SortEntries, Collation;
    var more := entries + [entries[|entries| - 1]];
    RepeatedLastIsSorted(leq, entries);
    SortOfSorted(leq, entries);
    SortOfSorted(leq, more);
    var leaves := Leaves(H, entries);
    assert Leaves(H, more) == leaves + [leaves[|leaves| - 1]];
    RepeatedLastNode(H, leaves);
  }

  lemma RepeatedLastIsSorted(leq: Order, entries: seq<ReceiptEntry>)
    requires Collation(leq) && Sorted(leq, entries) && entries != []
    ensures Sorted(leq, entries + [entries[|entries| - 1]])
  {}

  lemma RepeatedLastNode(H: Hash, nodes: seq<Digest>)
    requires |nodes| % 2 == 1
    ensures Above(H, nodes) == Above(H, nodes + [nodes[|nodes| - 1]])
  {
    hide HashNode;
    var more := nodes + [nodes[|nodes| - 1]];
    forall k | 0 <= k < |Above(H, nodes)|
      ensures Above(H, nodes)[k] == Above(H, more)[k]
    {
      assert more[2 * k] == nodes[2 * k] && PairedWith(more, 2 * k) == PairedWith(nodes, 2 * k);
    }
  }
}

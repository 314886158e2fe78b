/** Merkle trees over payout entries: the root, the path from any entry to it, and the check of a
    path. All of it is stated for an arbitrary function from bytes to 32 bytes as the hash. */
module Receipt {
  import opened Wrappers
  import opened Text
  import opened Hex
  import opened EntryOrder
  import opened Decimal

  type Digest = b: Bytes | |b| == 32 witness seq(32, _ => 0)
  type Hash = Bytes -> Digest

  const LEAF_TAG: Byte := 0x00
  const NODE_TAG: Byte := 0x01
  const BAR: Byte := 0x7C

  datatype ProofStep = ProofStep(hash: string, right: bool)

  datatype EntryProof =
    EntryProof(round: int, accountId: Bytes, amount: NumberText, path: seq<ProofStep>, commitment: string)

  datatype ReceiptError = NoEntries | NoEntryFor(accountId: Bytes)

  // ---- what is hashed --------------------------------------------------------

  function Ascii(text: string): (b: Bytes)
    requires forall i :: 0 <= i < |text| ==> text[i] < 128 as char
    ensures |b| == |text| && forall i :: 0 <= i < |text| ==> b[i] == text[i] as int
  {
    if text == "" then [] else [text[0] as int] + Ascii(text[1..])
  }

  /** The amount as the template string spells it: ASCII, and without the separator. */
  function AmountBytes(amount: NumberText): (b: Bytes)
    ensures BAR !in b
  {
    assert forall i :: 0 <= i < |amount| ==> IsNumberChar(amount[i]);
    Ascii(amount)
  }

  function LeafContent(e: ReceiptEntry): Bytes {
    e.accountId + [BAR] + AmountBytes(e.amount)
  }

  function LeafInput(e: ReceiptEntry): Bytes {
    [LEAF_TAG] + LeafContent(e)
  }

  function NodeInput(left: Digest, right: Digest): Bytes {
    [NODE_TAG] + left + right
  }

  function LeafHash(H: Hash, e: ReceiptEntry): Digest {
    H(LeafInput(e))
  }

  function HashNode(H: Hash, left: Digest, right: Digest): Digest {
    H(NodeInput(left, right))
  }

  // ---- the tree ----------------------------------------------------------------

  function Leaves(H: Hash, entries: seq<ReceiptEntry>): (leaves: seq<Digest>)
    ensures |leaves| == |entries|
    ensures forall i :: 0 <= i < |entries| ==> leaves[i] == LeafHash(H, entries[i])
  {
    if entries == [] then [] else [LeafHash(H, entries[0])] + Leaves(H, entries[1..])
  }

  /** The node paired with the one at an even place; the odd one out is paired with itself. */
  function PairedWith(nodes: seq<Digest>, i: nat): Digest
    requires i < |nodes|
  {
    if i + 1 < |nodes| then nodes[i + 1] else nodes[i]
  }

  /** What is hashed to make the next level up. */
  function PairInputs(nodes: seq<Digest>): (inputs: seq<Bytes>)
    ensures |inputs| == (|nodes| + 1) / 2
    ensures forall k :: 0 <= k < |inputs| ==> inputs[k] == NodeInput(nodes[2 * k], PairedWith(nodes, 2 * k))
  {
    seq((|nodes| + 1) / 2, k requires 0 <= k < (|nodes| + 1) / 2 => NodeInput(nodes[2 * k], PairedWith(nodes, 2 * k)))
  }

  function Above(H: Hash, nodes: seq<Digest>): (above: seq<Digest>)
    ensures |above| == (|nodes| + 1) / 2
    ensures forall k :: 0 <= k < |above| ==> above[k] == HashNode(H, nodes[2 * k], PairedWith(nodes, 2 * k))
  {
    seq((|nodes| + 1) / 2, k requires 0 <= k < (|nodes| + 1) / 2 => HashNode(H, nodes[2 * k], PairedWith(nodes, 2 * k)))
  }

  function RootOf(H: Hash, nodes: seq<Digest>): Digest
    requires nodes != []
    decreases |nodes|
  {
    if |nodes| == 1 then nodes[0] else RootOf(H, Above(H, nodes))
  }

  /** Every input hashed on the way from these nodes to their root. */
  function TreeInputs(H: Hash, nodes: seq<Digest>): seq<Bytes>
    decreases |nodes|
  {
    if |nodes| <= 1 then [] else PairInputs(nodes) + TreeInputs(H, Above(H, nodes))
  }

  // ---- root, proof, check ------------------------------------------------------------

  function Root(H: Hash, leq: Order, entries: seq<ReceiptEntry>): Digest
    requires entries != []
  {
    SortShape(leq, entries);
    RootOf(H, Leaves(H, SortEntries(leq, entries)))
  }

  /** The sibling a node is hashed with and the side that sibling sits on. */
  function StepAt(level: seq<Digest>, index: nat): ProofStep
    requires index < |level|
  {
    if index % 2 == 1 then ProofStep(ToHex(level[index - 1]), false)
    else ProofStep(ToHex(PairedWith(level, index)), true)
  }

  function PathFrom(H: Hash, level: seq<Digest>, index: nat): seq<ProofStep>
    requires index < |level|
    decreases |level|
  {
    if |level| == 1 then [] else [StepAt(level, index)] + PathFrom(H, Above(H, level), index / 2)
  }

  function Join(H: Hash, running: Digest, sibling: Digest, right: bool): Digest {
    if right then HashNode(H, running, sibling) else HashNode(H, sibling, running)
  }

  function JoinInput(running: Digest, sibling: Digest, right: bool): Bytes {
    if right then NodeInput(running, sibling) else NodeInput(sibling, running)
  }

  /** The running hash after the whole path, or None once a sibling is not 32 bytes. */
  function Climb(H: Hash, leaf: Digest, path: seq<ProofStep>): Option<Digest> {
    if path == [] then Some(leaf)
    else
      var last := path[|path| - 1];
      var before := Climb(H, leaf, path[..|path| - 1]);
      if before.None? || |FromHex(last.hash)| != 32 then None
      else Some(Join(H, before.value, FromHex(last.hash), last.right))
  }

  /** Every input hashed on the way up a path. */
  function ClimbInputs(H: Hash, leaf: Digest, path: seq<ProofStep>): seq<Bytes> {
    if path == [] then []
    else
      var last := path[|path| - 1];
      var before := Climb(H, leaf, path[..|path| - 1]);
      ClimbInputs(H, leaf, path[..|path| - 1])
      + (if before.None? || |FromHex(last.hash)| != 32 then []
         else [JoinInput(before.value, FromHex(last.hash), last.right)])
  }

  function Claimed(proof: EntryProof): ReceiptEntry {
    ReceiptEntry(proof.accountId, proof.amount)
  }

  /** Where the proof's path leads from the leaf of the entry it names. */
  function EndOf(H: Hash, proof: EntryProof): Option<Digest> {
    Climb(H, LeafHash(H, Claimed(proof)), proof.path)
  }

  predicate Accepts(H: Hash, proof: EntryProof) {
    var end := EndOf(H, proof);
    end.Some? && ToHex(end.value) == proof.commitment
  }

  method NextLevel(H: Hash, nodes: seq<Digest>) returns (next: seq<Digest>)
    ensures next == Above(H, nodes)
  {
    next := [];
    var i := 0;
    while i < |nodes|
      invariant i % 2 == 0 && |next| == i / 2 && i <= |nodes| + 1
      invariant forall k :: 0 <= k < |next| ==> next[k] == HashNode(H, nodes[2 * k], PairedWith(nodes, 2 * k))
    {
      var left := nodes[i];
      var right := if i + 1 < |nodes| then nodes[i + 1] else left;
      next := next + [HashNode(H, left, right)];
      i := i + 2;
    }
  }

  method LevelUp(H: Hash, nodes: seq<Digest>) returns (root: Digest)
    requires nodes != []
    ensures root == RootOf(H, nodes)
    decreases |nodes|
  {
    if |nodes| == 1 {
      return nodes[0];
    }
    var next := NextLevel(H, nodes);
    root := LevelUp(H, next);
  }

  method MerkleRoot(H: Hash, leq: Order, entries: seq<ReceiptEntry>) returns (root: Result<string, ReceiptError>)
    ensures root == if entries == [] then Err(NoEntries) else Ok(ToHex(Root(H, leq, entries)))
  {
    SortShape(leq, entries);
    var leaves := Leaves(H, SortEntries(leq, entries));
    if |leaves| == 0 {
      return Err(NoEntries);
    }
    var top := LevelUp(H, leaves);
    return Ok(ToHex(top));
  }

  /** A proof is found exactly when the account has an entry; it names that entry, commits to
      the root of all of them, and is accepted. */
  method ProofFor(H: Hash, leq: Order, entries: seq<ReceiptEntry>, accountId: Bytes)
    returns (proof: Result<EntryProof, ReceiptError>)
    ensures proof.Err? <==> forall i :: 0 <= i < |entries| ==> entries[i].accountId != accountId
    ensures proof.Err? ==> proof.error == NoEntryFor(accountId)
    ensures proof.Ok? ==>
      && ReceiptEntry(accountId, proof.value.amount) in entries && proof.value.accountId == accountId
      && proof.value.commitment == ToHex(Root(H, leq, entries))
      && Accepts(H, proof.value)
  {
    var sorted := SortEntries(leq, entries);
    SortShape(leq, entries);
    var found := IndexOfAccount(sorted, accountId);
    if found.None? {
      forall i | 0 <= i < |entries|
        ensures entries[i].accountId != accountId
      {
        assert entries[i] in sorted;
      }
      return Err(NoEntryFor(accountId));
    }
    var entry := sorted[found.value];
    assert entry in entries;
    var path, top := WalkToRoot(H, Leaves(H, sorted), found.value);
    PathIsAccepted(H, sorted, found.value);
    return Ok(EntryProof(0, entry.accountId, entry.amount, path, ToHex(top)));
  }

  /** The siblings met on the way from one leaf to the root, and the root. */
  method WalkToRoot(H: Hash, leaves: seq<Digest>, start: nat) returns (path: seq<ProofStep>, top: Digest)
    requires start < |leaves|
    ensures path == PathFrom(H, leaves, start) && top == RootOf(H, leaves)
  {
    hide StepAt, ToHex, HashNode, Above, RemainsToWalk;
    var level: seq<Digest>, index: nat := leaves, start;
    path := [];
    RemainsAtFirst(H, leaves, start);
    while |level| > 1
      invariant index < |level|
      invariant RemainsToWalk(H, leaves, start, path, level, index)
      decreases |level|
    {
      var isRight := index % 2 == 1;
      var siblingIndex := if isRight then index - 1 else index + 1;
      var sibling := if siblingIndex < |level| then level[siblingIndex] else level[index];
      var step := ProofStep(ToHex(sibling), !isRight);
      StepIs(level, index, step, sibling);
      RemainsAfterStep(H, leaves, start, path, level, index);
      path := path + [step];
      level := NextLevel(H, level);
      index := index / 2;
    }
    RemainsAtLast(H, leaves, start, path, level);
    top := level[0];
  }

  /** What has been walked and what lies ahead make up the whole path, under the same root. */
  ghost predicate RemainsToWalk(
    H: Hash, leaves: seq<Digest>, start: nat, path: seq<ProofStep>, level: seq<Digest>, index: nat)
    requires start < |leaves| && index < |level|
  {
    && path + PathFrom(H, level, index) == PathFrom(H, leaves, start)
    && RootOf(H, level) == RootOf(H, leaves)
  }

  lemma RemainsAtFirst(H: Hash, leaves: seq<Digest>, start: nat)
    requires start < |leaves|
    ensures RemainsToWalk(H, leaves, start, [], leaves, start)
  {
    assert [] + PathFrom(H, leaves, start) == PathFrom(H, leaves, start);
  }

  lemma RemainsAfterStep(
    H: Hash, leaves: seq<Digest>, start: nat, path: seq<ProofStep>, level: seq<Digest>, index: nat)
    requires start < |leaves| && index < |level| && |level| > 1
    requires RemainsToWalk(H, leaves, start, path, level, index)
    ensures RemainsToWalk(H, leaves, start, path + [StepAt(level, index)], Above(H, level), index / 2)
  {
    var rest := PathFrom(H, Above(H, level), index / 2);
    assert path + ([StepAt(level, index)] + rest) == path + [StepAt(level, index)] + rest;
  }

  lemma RemainsAtLast(
    H: Hash, leaves: seq<Digest>, start: nat, path: seq<ProofStep>, level: seq<Digest>)
    requires start < |leaves| && |level| == 1
    requires RemainsToWalk(H, leaves, start, path, level, 0)
    ensures path == PathFrom(H, leaves, start) && level[0] == RootOf(H, leaves)
  {
    assert path + [] == path;
  }

  lemma StepIs(level: seq<Digest>, index: nat, step: ProofStep, sibling: Digest)
    requires index < |level|
    requires sibling == (if index % 2 == 1 then level[index - 1]
                         else if index + 1 < |level| then level[index + 1] else level[index])
    requires step == ProofStep(ToHex(sibling), index % 2 != 1)
    ensures step == StepAt(level, index)
  {}

  lemma PathIsAccepted(H: Hash, sorted: seq<ReceiptEntry>, index: nat)
    requires index < |sorted|
    ensures var leaves := Leaves(H, sorted);
            Accepts(H, EntryProof(0, sorted[index].accountId, sorted[index].amount,
                                  PathFrom(H, leaves, index), ToHex(RootOf(H, leaves))))
  {
    PathReachesRoot(H, Leaves(H, sorted), index);
  }

  method IndexOfAccount(entries: seq<ReceiptEntry>, accountId: Bytes) returns (found: Option<nat>)
    ensures found.None? ==> forall i :: 0 <= i < |entries| ==> entries[i].accountId != accountId
    ensures found.Some? ==> found.value < |entries| && entries[found.value].accountId == accountId
    ensures found.Some? ==> forall i :: 0 <= i < found.value ==> entries[i].accountId != accountId
  {
    for i := 0 to |entries|
      invariant forall k :: 0 <= k < i ==> entries[k].accountId != accountId
    {
      if entries[i].accountId == accountId {
        return Some(i);
      }
    }
    return None;
  }

  method VerifyProof(H: Hash, proof: EntryProof) returns (accepted: bool)
    ensures accepted == Accepts(H, proof)
  {
    hide LeafHash, FromHex, Join;
    var leaf := LeafHash(H, Claimed(proof));
    var running := leaf;
    for i := 0 to |proof.path|
      invariant Climb(H, leaf, proof.path[..i]) == Some(running)
    {
      assert proof.path[..i + 1][..i] == proof.path[..i];
      var sibling := FromHex(proof.path[i].hash);
      if |sibling| != 32 {
        StuckStaysStuck(H, leaf, proof.path, i + 1);
        return false;
      }
      running := Join(H, running, sibling, proof.path[i].right);
    }
    assert proof.path[..|proof.path|] == proof.path;
    return ToHex(running) == proof.commitment;
  }

  lemma {:induction false} StuckStaysStuck(H: Hash, leaf: Digest, path: seq<ProofStep>, n: nat)
    requires n <= |path| && Climb(H, leaf, path[..n]).None?
    ensures Climb(H, leaf, path).None?
  {
    if n == |path| {
      assert path[..n] == path;
    } else {
      assert path[..|path| - 1][..n] == path[..n];
      StuckStaysStuck(H, leaf, path[..|path| - 1], n);
    }
  }

  // ---- completeness --------------------------------------------------------------------

  lemma {:induction false} ClimbFirst(H: Hash, leaf: Digest, step: ProofStep, rest: seq<ProofStep>)
    requires |FromHex(step.hash)| == 32
    ensures var next := Join(H, leaf, FromHex(step.hash), step.right);
            && Climb(H, leaf, [step] + rest) == Climb(H, next, rest)
            && ClimbInputs(H, leaf, [step] + rest)
            == [JoinInput(leaf, FromHex(step.hash), step.right)] + ClimbInputs(H, next, rest)
  {
    hide FromHex, Join, JoinInput;
    var path := [step] + rest;
    if rest == [] {
      assert path[..0] == [];
    } else {
      ClimbFirst(H, leaf, step, rest[..|rest| - 1]);
      assert path[..|path| - 1] == [step] + rest[..|rest| - 1];
    }
  }

  lemma StepJoins(H: Hash, level: seq<Digest>, index: nat)
    requires index < |level|
    ensures var step := StepAt(level, index);
            && |FromHex(step.hash)| == 32
            && Join(H, level[index], FromHex(step.hash), step.right) == Above(H, level)[index / 2]
            && JoinInput(level[index], FromHex(step.hash), step.right) == PairInputs(level)[index / 2]
  {
    hide FromHex, ToHex, NodeInput;
    if index % 2 == 1 {
      HexIsReadBack(level[index - 1]);
      assert 2 * (index / 2) == index - 1;
    } else {
      HexIsReadBack(PairedWith(level, index));
      assert 2 * (index / 2) == index;
    }
  }

  /** Climbing the path read off a tree ends at its root, hashing only what the tree hashed. */
  lemma {:induction false} PathReachesRoot(H: Hash, level: seq<Digest>, index: nat)
    requires index < |level|
    ensures Climb(H, level[index], PathFrom(H, level, index)) == Some(RootOf(H, level))
    ensures forall x :: x in ClimbInputs(H, level[index], PathFrom(H, level, index)) ==> x in TreeInputs(H, level)
    decreases |level|
  {
    if |level| > 1 {
      var step, above := StepAt(level, index), Above(H, level);
      StepJoins(H, level, index);
      PathReachesRoot(H, above, index / 2);
      ClimbFirst(H, level[index], step, PathFrom(H, above, index / 2));
      assert PairInputs(level)[index / 2] in PairInputs(level);
    }
  }
}

/**
 The hexary Patricia trie of crates/ivory-state/src/trie.rs.

 The trie of a finite map is first defined on the map itself (`BuildNode`, `Root`), which makes
 it independent of the order in which entries are listed. The builder, the prover and the
 verifier are then the source's recursion and loops, proved against that definition.
 Keccak and bincode are parameters: every result either holds or names two different byte
 strings with the same digest.
 */
module Trie {
  import opened Primitives

  type Nibble = n: int | 0 <= n < 16
  type Nibbles = seq<Nibble>
  type Entries = map<Nibbles, Bytes>
  type Items = seq<(Nibbles, Bytes)>

  type Children = c: seq<Option<H256>> | |c| == 16
    witness [None, None, None, None, None, None, None, None, None, None, None, None, None, None, None, None]

  /** A node as stored by hash. Paths are raw bytes: a decoded node need not hold nibbles. */
  datatype Node =
    | Empty
    | Leaf(path: Bytes, value: Bytes)
    | Extension(path: Bytes, child: H256)
    | Branch(children: Children, branchValue: Option<Bytes>)

  /** The hash function and the node serialisation. */
  datatype Codec = Codec(keccak: Bytes -> H256, encode: Node -> Bytes, decode: Bytes -> Option<Node>) {
    /** Decoding inverts encoding. Nothing is said about byte strings that encode no node. */
    ghost predicate Faithful() {
      forall n: Node :: decode(encode(n)) == Some(n)
    }

    ghost predicate Collision(x: Bytes, y: Bytes) {
      x != y && keccak(x) == keccak(y)
    }

    ghost predicate CollisionFree(s: set<Bytes>) {
      forall x, y :: x in s && y in s && keccak(x) == keccak(y) ==> x == y
    }
  }

  datatype ProofError = InvalidNode | HashMismatch | Incomplete

  datatype TrieProof = TrieProof(root: H256, nodes: seq<Bytes>, value: Option<Bytes>)

  // ----- Sub-maps below a key prefix

  ghost function Tails(keys: set<Nibbles>, p: Nibbles): set<Nibbles> {
    set k | k in keys && p <= k :: k[|p|..]
  }

  /** The entries whose key starts with `p`, with `p` taken off. */
  ghost function Sub(m: Entries, p: Nibbles): (r: Entries)
    ensures p != [] && r != map[] ==> Height(r.Keys) < Height(m.Keys)
  {
    TailsMembers(m.Keys, p);
    TailsHeight(m.Keys, p);
    map t | t in Tails(m.Keys, p) :: m[p + t]
  }

  lemma SubMembers(m: Entries, p: Nibbles)
    ensures forall t: Nibbles :: t in Sub(m, p) <==> p + t in m
    ensures forall t: Nibbles :: t in Sub(m, p) ==> Sub(m, p)[t] == m[p + t]
  {
    TailsMembers(m.Keys, p);
  }

  lemma SubLookup(m: Entries, p: Nibbles, k: Nibbles)
    requires p <= k
    ensures Get(Sub(m, p), k[|p|..]) == Get(m, k)
  {
    SubMembers(m, p);
    assert p + k[|p|..] == k;
  }

  lemma TailsMembers(keys: set<Nibbles>, p: Nibbles)
    ensures forall t: Nibbles :: t in Tails(keys, p) <==> p + t in keys
  {
    forall t: Nibbles
      ensures t in Tails(keys, p) <==> p + t in keys
    {
      assert (p + t)[|p|..] == t;
      if t in Tails(keys, p) {
        var k :| k in keys && p <= k && k[|p|..] == t;
        assert k == p + t;
      }
    }
  }

  /** Length of the longest key: the measure on which the builder terminates. */
  ghost function Height(keys: set<Nibbles>): (r: nat)
    ensures forall k :: k in keys ==> |k| <= r
    ensures keys != {} ==> exists k :: k in keys && |k| == r
  {
    if keys == {} then 0
    else
      var k :| k in keys;
      var rest := Height(keys - {k});
      if |k| >= rest then |k| else rest
  }

  lemma TailsHeight(keys: set<Nibbles>, p: Nibbles)
    ensures p != [] && Tails(keys, p) != {} ==> Height(Tails(keys, p)) < Height(keys)
  {
    if p != [] && Tails(keys, p) != {} {
      var t :| t in Tails(keys, p) && |t| == Height(Tails(keys, p));
      var k :| k in keys && p <= k && k[|p|..] == t;
    }
  }

  // ----- The longest common prefix of a set of keys

  ghost predicate CommonPrefix(p: Nibbles, keys: set<Nibbles>) {
    forall k :: k in keys ==> p <= k
  }

  ghost predicate LongestCommonPrefix(p: Nibbles, keys: set<Nibbles>) {
    CommonPrefix(p, keys) && forall q :: CommonPrefix(q, keys) ==> |q| <= |p|
  }

  lemma LongestCommonPrefixUnique(p: Nibbles, q: Nibbles, keys: set<Nibbles>)
    requires keys != {}
    requires LongestCommonPrefix(p, keys) && LongestCommonPrefix(q, keys)
    ensures p == q
  {
    var k :| k in keys;
    assert p <= k && q <= k && |p| == |q|;
  }

  ghost function Lcp(keys: set<Nibbles>): (p: Nibbles)
    requires keys != {}
    ensures LongestCommonPrefix(p, keys)
  {
    var k :| k in keys;
    LcpExists(keys, k, |k|);
    var p :| LongestCommonPrefix(p, keys);
    p
  }

  lemma LcpExists(keys: set<Nibbles>, k: Nibbles, n: nat)
    requires k in keys && n <= |k|
    requires forall q :: CommonPrefix(q, keys) ==> |q| <= n
    ensures exists p :: LongestCommonPrefix(p, keys)
  {
    if CommonPrefix(k[..n], keys) {
      assert LongestCommonPrefix(k[..n], keys);
    } else {
      forall q | CommonPrefix(q, keys)
        ensures |q| <= n - 1
      {
        assert q <= k;
        assert |q| == n ==> CommonPrefix(k[..n], keys);
      }
      LcpExists(keys, k, n - 1);
    }
  }

  // ----- The trie of a map

  ghost predicate Singleton(m: Entries, k: Nibbles) {
    m.Keys == {k}
  }

  ghost function BuildNode(c: Codec, m: Entries): Node
    decreases Height(m.Keys), 1
  {
    if m == map[] then Empty
    else if exists k :: Singleton(m, k) then
      var k :| Singleton(m, k);
      Leaf(k, m[k])
    else
      var p := Lcp(m.Keys);
      if p != [] then
        SubNonEmpty(m, p);
        Extension(p, Root(c, Sub(m, p)))
      else
        Branch(seq(16, i requires 0 <= i < 16 => ChildHash(c, m, i)), Get(m, []))
  }

  ghost function ChildHash(c: Codec, m: Entries, i: Nibble): Option<H256>
    decreases Height(m.Keys), 0
  {
    if Sub(m, [i]) == map[] then None else Some(Root(c, Sub(m, [i])))
  }

  ghost function Root(c: Codec, m: Entries): H256
    decreases Height(m.Keys), 2
  {
    c.keccak(c.encode(BuildNode(c, m)))
  }

  lemma SubNonEmpty(m: Entries, p: Nibbles)
    requires m != map[] && CommonPrefix(p, m.Keys)
    ensures Sub(m, p) != map[]
  {
    var k :| k in m;
    SubLookup(m, p, k);
  }

  /** Encodings of every node strictly below the root of the trie of `m`. */
  ghost function Below(c: Codec, m: Entries): set<Bytes>
    decreases Height(m.Keys), 1
  {
    match BuildNode(c, m)
    case Extension(_, _) =>
      SubNonEmpty(m, Lcp(m.Keys));
      NodeSet(c, Sub(m, Lcp(m.Keys)))
    case Branch(_, _) => BelowUpTo(c, m, 16)
    case _ => {}
  }

  ghost function BelowUpTo(c: Codec, m: Entries, n: nat): set<Bytes>
    requires n <= 16
    decreases Height(m.Keys), 0, n
  {
    if n == 0 then {} else BelowUpTo(c, m, n - 1) + GroupNodes(c, m, n - 1)
  }

  ghost function GroupNodes(c: Codec, m: Entries, i: Nibble): set<Bytes>
    decreases Height(m.Keys), 0, 0
  {
    if Sub(m, [i]) == map[] then {} else NodeSet(c, Sub(m, [i]))
  }

  /** Encodings of every node of the trie of `m`. */
  ghost function NodeSet(c: Codec, m: Entries): set<Bytes>
    decreases Height(m.Keys), 2
  {
    {c.encode(BuildNode(c, m))} + Below(c, m)
  }

  // The same nodes in the order the builder emits them: children by nibble, a node after everything below it

  ghost function BelowList(c: Codec, m: Entries): seq<Bytes>
    decreases Height(m.Keys), 1
  {
    match BuildNode(c, m)
    case Extension(_, _) =>
      SubNonEmpty(m, Lcp(m.Keys));
      NodeList(c, Sub(m, Lcp(m.Keys)))
    case Branch(_, _) => ListUpTo(c, m, 16)
    case _ => []
  }

  ghost function ListUpTo(c: Codec, m: Entries, n: nat): seq<Bytes>
    requires n <= 16
    decreases Height(m.Keys), 0, n
  {
    if n == 0 then [] else ListUpTo(c, m, n - 1) + GroupList(c, m, n - 1)
  }

  ghost function GroupList(c: Codec, m: Entries, i: Nibble): seq<Bytes>
    decreases Height(m.Keys), 0, 0
  {
    if Sub(m, [i]) == map[] then [] else NodeList(c, Sub(m, [i]))
  }

  ghost function NodeList(c: Codec, m: Entries): seq<Bytes>
    decreases Height(m.Keys), 2
  {
    BelowList(c, m) + [c.encode(BuildNode(c, m))]
  }

  ghost predicate Covers(list: seq<Bytes>, nodes: set<Bytes>) {
    forall x :: x in list <==> x in nodes
  }

  /** The list holds exactly the nodes of the trie. */
  lemma {:induction false} NodeListCovers(c: Codec, m: Entries)
    ensures Covers(NodeList(c, m), NodeSet(c, m))
    decreases Height(m.Keys), 2
  {
    hide BuildNode, Sub;
    BelowListCovers(c, m);
  }

  lemma {:induction false} BelowListCovers(c: Codec, m: Entries)
    ensures Covers(BelowList(c, m), Below(c, m))
    decreases Height(m.Keys), 1
  {
    hide BuildNode, NodeList, NodeSet, ListUpTo, BelowUpTo, Covers;
    match BuildNode(c, m)
    case Extension(_, _) =>
      ExtensionShrinks(c, m);
      NodeListCovers(c, Sub(m, Lcp(m.Keys)));
    case Branch(_, _) => ListUpToCovers(c, m, 16);
    case _ => NoneCovered();
  }

  lemma ExtensionShrinks(c: Codec, m: Entries)
    requires BuildNode(c, m).Extension?
    ensures Height(Sub(m, Lcp(m.Keys)).Keys) < Height(m.Keys)
  {
    SubNonEmpty(m, Lcp(m.Keys));
  }

  lemma NoneCovered()
    ensures Covers([], {})
  {
  }

  lemma {:induction false} ListUpToCovers(c: Codec, m: Entries, n: nat)
    requires n <= 16
    ensures Covers(ListUpTo(c, m, n), BelowUpTo(c, m, n))
    decreases Height(m.Keys), 0, n
  {
    hide BuildNode, NodeList, NodeSet;
    if n > 0 {
      ListUpToCovers(c, m, n - 1);
      if Sub(m, [n - 1]) != map[] {
        NodeListCovers(c, Sub(m, [n - 1]));
      }
    }
  }

  lemma {:induction false} BelowUpToMember(c: Codec, m: Entries, i: nat, n: nat)
    requires i < n <= 16 && Sub(m, [i]) != map[]
    ensures NodeSet(c, Sub(m, [i])) <= BelowUpTo(c, m, n)
    decreases n
  {
    hide BuildNode, Sub, Below;
    if i < n - 1 {
      BelowUpToMember(c, m, i, n - 1);
    }
  }

  // What each kind of root node says about the map

  lemma EmptyShape(c: Codec, m: Entries)
    requires BuildNode(c, m).Empty?
    ensures m == map[]
  {
  }

  lemma RootInNodeSet(c: Codec, m: Entries)
    ensures c.encode(BuildNode(c, m)) in NodeSet(c, m)
  {
  }

  lemma LeafShape(c: Codec, m: Entries)
    requires BuildNode(c, m).Leaf?
    ensures m.Keys == {BuildNode(c, m).path} && m[BuildNode(c, m).path] == BuildNode(c, m).value
  {
    hide Sub, Lcp;
  }

  lemma ExtensionShape(c: Codec, m: Entries)
    requires BuildNode(c, m).Extension?
    ensures m != map[]
    ensures BuildNode(c, m) == Extension(Lcp(m.Keys), Root(c, Sub(m, Lcp(m.Keys)))) && Lcp(m.Keys) != []
    ensures NodeSet(c, Sub(m, Lcp(m.Keys))) <= NodeSet(c, m)
  {
    hide Sub, Lcp;
  }

  lemma BranchShape(c: Codec, m: Entries, i: Nibble)
    requires BuildNode(c, m).Branch?
    ensures BuildNode(c, m).branchValue == Get(m, [])
    ensures BuildNode(c, m).children[i] == ChildHash(c, m, i)
    ensures Sub(m, [i]) != map[] ==> NodeSet(c, Sub(m, [i])) <= NodeSet(c, m)
  {
    hide Sub, Lcp, Below, NodeSet;
    if Sub(m, [i]) != map[] {
      BranchNodes(c, m, i);
    }
  }

  lemma BranchNodes(c: Codec, m: Entries, i: Nibble)
    requires BuildNode(c, m).Branch? && Sub(m, [i]) != map[]
    ensures NodeSet(c, Sub(m, [i])) <= NodeSet(c, m)
  {
    hide BuildNode, BelowUpTo;
    BelowUpToMember(c, m, i, 16);
  }

  // ----- Verification of an untrusted proof

  function VerifyFrom(c: Codec, expected: H256, rest: Nibbles, proof: seq<Bytes>)
    : (r: Result<Option<Bytes>, ProofError>)
    decreases |proof|, 0
  {
    if proof == [] then Err(Incomplete)
    else if c.keccak(proof[0]) != expected then Err(HashMismatch)
    else
      match c.decode(proof[0])
      case None => Err(InvalidNode)
      case Some(node) => VerifyNode(c, node, rest, proof[1..])
  }

  /** One step of the walk; a walk that ends must have used up the proof. */
  function VerifyNode(c: Codec, node: Node, rest: Nibbles, more: seq<Bytes>)
    : (r: Result<Option<Bytes>, ProofError>)
    decreases |more|, 1
  {
    match node
    case Empty => Stop(None, more)
    case Leaf(path, value) => Stop(if path == rest then Some(value) else None, more)
    case Extension(path, child) =>
      if path <= rest then VerifyFrom(c, child, rest[|path|..], more) else Stop(None, more)
    case Branch(children, value) =>
      if rest == [] then Stop(value, more)
      else
        match children[rest[0]]
        case None => Stop(None, more)
        case Some(h) => VerifyFrom(c, h, rest[1..], more)
  }

  function Stop(v: Option<Bytes>, more: seq<Bytes>): (r: Result<Option<Bytes>, ProofError>) {
    if more == [] then Ok(v) else Err(Incomplete)
  }

  /** An accepted proof has no node to spare and none missing: longer and shorter ones are refused as incomplete. */
  lemma {:induction false} ExactLength(c: Codec, root: H256, rest: Nibbles, proof: seq<Bytes>, extra: seq<Bytes>,
                                       n: nat)
    requires VerifyFrom(c, root, rest, proof).Ok? && |extra| > 0 && n < |proof|
    ensures VerifyFrom(c, root, rest, proof + extra) == Err(Incomplete)
    ensures VerifyFrom(c, root, rest, proof[..n]) == Err(Incomplete)
    decreases |proof|, 0
  {
    assert (proof + extra)[1..] == proof[1..] + extra;
    ExactSteps(c, c.decode(proof[0]).value, rest, proof[1..], extra, if n == 0 then 0 else n - 1);
    assert n > 0 ==> proof[..n][1..] == proof[1..][..n - 1];
  }

  lemma {:induction false} ExactSteps(c: Codec, node: Node, rest: Nibbles, more: seq<Bytes>, extra: seq<Bytes>, n: nat)
    requires VerifyNode(c, node, rest, more).Ok? && |extra| > 0
    ensures VerifyNode(c, node, rest, more + extra) == Err(Incomplete)
    ensures n < |more| ==> VerifyNode(c, node, rest, more[..n]) == Err(Incomplete)
    decreases |more|, 1
  {
    if node.Extension? && node.path <= rest {
      ExactLength(c, node.child, rest[|node.path|..], more, extra, if n < |more| then n else 0);
    } else if node.Branch? && rest != [] && node.children[rest[0]].Some? {
      ExactLength(c, node.children[rest[0]].value, rest[1..], more, extra, if n < |more| then n else 0);
    }
  }

  /**
   Soundness against arbitrary proofs: whatever byte strings are offered, an accepted answer
   is the true lookup, or one of them collides with a node of the real trie.
   */
  lemma {:induction false} Sound(c: Codec, m: Entries, rest: Nibbles, proof: seq<Bytes>) returns (x: Bytes, y: Bytes)
    requires c.Faithful()
    requires VerifyFrom(c, Root(c, m), rest, proof).Ok?
    ensures VerifyFrom(c, Root(c, m), rest, proof).value == Get(m, rest)
            || (c.Collision(x, y) && x in proof && y in NodeSet(c, m))
    decreases |proof|
  {
    hide BuildNode, Sub, Below, NodeSet;
    x, y := proof[0], c.encode(BuildNode(c, m));
    RootInNodeSet(c, m);
    if x == y {
      assert c.decode(x) == Some(BuildNode(c, m));
      match BuildNode(c, m)
      case Empty => EmptyShape(c, m);
      case Leaf(_, _) => LeafShape(c, m);
      case Extension(_, _) =>
        ExtensionShape(c, m);
        var p := Lcp(m.Keys);
        if p <= rest {
          SubLookup(m, p, rest);
          x, y := Sound(c, Sub(m, p), rest[|p|..], proof[1..]);
        }
      case Branch(children, _) =>
        if rest != [] {
          SubLookup(m, [rest[0]], rest);
          BranchShape(c, m, rest[0]);
          if children[rest[0]].Some? {
            x, y := Sound(c, Sub(m, [rest[0]]), rest[1..], proof[1..]);
          }
        } else {
          BranchShape(c, m, 0);
        }
    }
  }

  /** The nodes met while looking `rest` up in the trie of `m`, root first. */
  ghost function PathProof(c: Codec, m: Entries, rest: Nibbles): (r: seq<Bytes>)
    decreases |rest|
  {
    var node := BuildNode(c, m);
    [c.encode(node)] +
    if node.Extension? && node.path <= rest && node.path != [] then PathProof(c, Sub(m, node.path), rest[|node.path|..])
    else if node.Branch? && rest != [] && node.children[rest[0]].Some? then PathProof(c, Sub(m, [rest[0]]), rest[1..])
    else []
  }

  lemma VerifyRoot(c: Codec, m: Entries, rest: Nibbles, proof: seq<Bytes>)
    requires c.Faithful() && proof != [] && proof[0] == c.encode(BuildNode(c, m))
    ensures VerifyFrom(c, Root(c, m), rest, proof) == VerifyNode(c, BuildNode(c, m), rest, proof[1..])
  {
    hide BuildNode;
  }

  /** Every key, present or absent, has a proof that is accepted with its true lookup. */
  lemma {:induction false} PathProofVerifies(c: Codec, m: Entries, rest: Nibbles)
    requires c.Faithful()
    ensures VerifyFrom(c, Root(c, m), rest, PathProof(c, m, rest)) == Ok(Get(m, rest))
    decreases |rest|
  {
    hide BuildNode, Sub, VerifyFrom, Root;
    var proof := PathProof(c, m, rest);
    VerifyRoot(c, m, rest, proof);
    match BuildNode(c, m)
    case Empty => EmptyShape(c, m);
    case Leaf(_, _) => LeafShape(c, m);
    case Extension(_, _) =>
      ExtensionShape(c, m);
      var p := Lcp(m.Keys);
      if p <= rest {
        SubLookup(m, p, rest);
        PathProofVerifies(c, Sub(m, p), rest[|p|..]);
        assert proof[1..] == PathProof(c, Sub(m, p), rest[|p|..]);
      }
    case Branch(children, _) =>
      BranchShape(c, m, if rest == [] then 0 else rest[0]);
      if rest != [] {
        SubLookup(m, [rest[0]], rest);
        if children[rest[0]].Some? {
          PathProofVerifies(c, Sub(m, [rest[0]]), rest[1..]);
          assert proof[1..] == PathProof(c, Sub(m, [rest[0]]), rest[1..]);
        }
      }
  }

  lemma {:induction false} PathProofNodes(c: Codec, m: Entries, rest: Nibbles)
    ensures forall b :: b in PathProof(c, m, rest) ==> b in NodeSet(c, m)
    decreases |rest|
  {
    hide BuildNode, Sub, NodeSet;
    RootInNodeSet(c, m);
    var node := BuildNode(c, m);
    if node.Extension? && node.path <= rest && node.path != [] {
      ExtensionShape(c, m);
      PathProofNodes(c, Sub(m, node.path), rest[|node.path|..]);
    } else if node.Branch? && rest != [] && node.children[rest[0]].Some? {
      BranchShape(c, m, rest[0]);
      PathProofNodes(c, Sub(m, [rest[0]]), rest[1..]);
    }
  }

  /** Two maps with one root are the same map, or their tries hold a collision. */
  lemma RootBinding(c: Codec, m: Entries, n: Entries) returns (x: Bytes, y: Bytes)
    requires c.Faithful()
    requires Root(c, m) == Root(c, n)
    ensures m == n || (c.Collision(x, y) && x in NodeSet(c, m) && y in NodeSet(c, n))
  {
    hide *;
    x, y := [], [];
    if k :| Get(m, k) != Get(n, k) {
      PathProofVerifies(c, m, k);
      PathProofNodes(c, m, k);
      x, y := Sound(c, n, k, PathProof(c, m, k));
    } else {
      SameLookups(m, n);
    }
  }

  // ----- Keys as nibbles

  function NibblesOf(bytes: Bytes): (r: Nibbles) {
    if bytes == [] then []
    else
      var n := |bytes| - 1;
      NibblesOf(bytes[..n]) + [bytes[n] / 16, bytes[n] % 16]
  }

  function BytesOf(nibbles: Nibbles): (r: Bytes) {
    if |nibbles| < 2 then []
    else
      var n := |nibbles| - 2;
      var high: int, low: int := nibbles[n], nibbles[n + 1];
      BytesOf(nibbles[..n]) + [16 * high + low]
  }

  /** Splitting bytes into nibbles loses nothing. */
  lemma {:induction false} NibblesInvert(b: Bytes)
    ensures BytesOf(NibblesOf(b)) == b
  {
    if b != [] {
      var n := |b| - 1;
      NibblesInvert(b[..n]);
      NibblePair(NibblesOf(b[..n]), b[n]);
      assert b == b[..n] + [b[n]];
    }
  }

  lemma NibblePair(init: Nibbles, x: Byte)
    ensures BytesOf(init + [x / 16, x % 16]) == BytesOf(init) + [x]
  {
    var all: Nibbles := init + [x / 16, x % 16];
    assert all[..|init|] == init;
  }

  /** Each byte gives two nibbles, the high one first. */
  lemma {:induction false} NibblesAt(bytes: Bytes, i: nat)
    requires i < |bytes|
    ensures |NibblesOf(bytes)| == 2 * |bytes|
    ensures NibblesOf(bytes)[2 * i] == bytes[i] / 16 && NibblesOf(bytes)[2 * i + 1] == bytes[i] % 16
    decreases |bytes|
  {
    if |bytes| > 1 {
      NibblesAt(bytes[..|bytes| - 1], if i < |bytes| - 1 then i else 0);
    }
  }

  method ToNibbles(bytes: Bytes) returns (out: Nibbles)
    ensures out == NibblesOf(bytes)
  {
    out := [];
    for i := 0 to |bytes|
      invariant out == NibblesOf(bytes[..i])
    {
      out := out + [bytes[i] / 16];
      out := out + [bytes[i] % 16];
      assert bytes[..i + 1][..i] == bytes[..i];
    }
    assert bytes[..|bytes|] == bytes;
  }

  // ----- Listing a map

  ghost function KeySet(items: Items): set<Nibbles> {
    set i | 0 <= i < |items| :: items[i].0
  }

  /** `items` enumerates `m`, every key once, in some order. */
  ghost predicate Lists(items: Items, m: Entries) {
    && (forall i, j :: 0 <= i < j < |items| ==> items[i].0 != items[j].0)
    && (forall k, v :: (k, v) in items <==> k in m && m[k] == v)
  }

  /** Entries under nibble `i`, with that nibble taken off. */
  function Group(items: Items, i: Nibble): (r: Items) {
    if items == [] then []
    else
      var (k, v) := items[0];
      (if k != [] && k[0] == i then [(k[1..], v)] else []) + Group(items[1..], i)
  }

  lemma {:induction false} GroupMembers(items: Items, i: Nibble)
    ensures forall t, v :: (t, v) in Group(items, i) <==> ([i] + t, v) in items
  {
    if items != [] {
      GroupMembers(items[1..], i);
      var (k, w) := items[0];
      forall t, v
        ensures (t, v) in Group(items, i) <==> ([i] + t, v) in items
      {
        assert ([i] + t)[1..] == t;
        assert k != [] && k[0] == i ==> k == [i] + k[1..];
        assert ([i] + t, v) in items <==> ([i] + t, v) == (k, w) || ([i] + t, v) in items[1..];
      }
    }
  }

  lemma {:induction false} GroupDistinct(items: Items, i: Nibble)
    requires forall a, b :: 0 <= a < b < |items| ==> items[a].0 != items[b].0
    ensures forall a, b :: 0 <= a < b < |Group(items, i)| ==> Group(items, i)[a].0 != Group(items, i)[b].0
  {
    if items != [] {
      var tail := Group(items[1..], i);
      GroupDistinct(items[1..], i);
      GroupMembers(items[1..], i);
      var (k, w) := items[0];
      if k != [] && k[0] == i {
        forall b | 0 <= b < |tail|
          ensures tail[b].0 != k[1..]
        {
          assert (tail[b].0, tail[b].1) in tail;
          assert k == [i] + k[1..];
        }
      }
    }
  }

  lemma GroupLists(items: Items, m: Entries, i: Nibble)
    requires Lists(items, m)
    ensures Lists(Group(items, i), Sub(m, [i]))
  {
    hide Sub, Group;
    SubMembers(m, [i]);
    GroupMembers(items, i);
    GroupDistinct(items, i);
  }

  lemma StrippedLists(items: Items, m: Entries, p: Nibbles, stripped: Items)
    requires Lists(items, m) && CommonPrefix(p, m.Keys)
    requires |stripped| == |items|
    requires forall i :: 0 <= i < |items| ==>
      |p| <= |items[i].0| && stripped[i] == (items[i].0[|p|..], items[i].1)
    ensures Lists(stripped, Sub(m, p))
  {
    hide Sub;
    SubMembers(m, p);
    forall i | 0 <= i < |items|
      ensures p + stripped[i].0 == items[i].0
      ensures items[i].0 in m && m[items[i].0] == items[i].1
    {
      assert (items[i].0, items[i].1) in items;
    }
    forall t, v
      ensures (t, v) in stripped <==> t in Sub(m, p) && Sub(m, p)[t] == v
    {
      if t in Sub(m, p) && Sub(m, p)[t] == v {
        assert (p + t, v) in items;
        var i :| 0 <= i < |items| && items[i] == (p + t, v);
        assert stripped[i] == (t, v);
      }
    }
  }

  lemma ListsKeys(items: Items, m: Entries)
    requires Lists(items, m)
    ensures KeySet(items) == m.Keys
  {
    forall k
      ensures k in KeySet(items) <==> k in m.Keys
    {
      if k in m {
        assert (k, m[k]) in items;
      }
      if i :| 0 <= i < |items| && items[i].0 == k {
        assert (items[i].0, items[i].1) in items;
      }
    }
  }

  // ----- The builder

  /** Number of leading positions on which two keys agree. */
  method SharedLen(a: Nibbles, b: Nibbles) returns (n: nat)
    ensures n <= |a| && n <= |b| && a[..n] == b[..n]
    ensures n < |a| && n < |b| ==> a[n] != b[n]
  {
    n := 0;
    while n < |a| && n < |b| && a[n] == b[n]
      invariant n <= |a| && n <= |b| && a[..n] == b[..n]
    {
      n := n + 1;
    }
  }

  method CommonPrefixLen(items: Items) returns (n: nat)
    ensures items == [] ==> n == 0
    ensures items != [] ==> n <= |items[0].0| && LongestCommonPrefix(items[0].0[..n], KeySet(items))
  {
    if items == [] {
      return 0;
    }
    var first := items[0].0;
    n := |first|;
    ghost var short := 0;
    for i := 1 to |items|
      invariant n <= |first|
      invariant forall j :: 0 <= j < i ==> first[..n] <= items[j].0
      invariant 0 <= short < i
      invariant n == |first| || |items[short].0| == n || items[short].0[n] != first[n]
    {
      var shared := SharedLen(first, items[i].0);
      if shared < n {
        n := shared;
        short := i;
      }
      assert first[..n] == items[i].0[..n];
    }
    forall q | CommonPrefix(q, KeySet(items))
      ensures |q| <= n
    {
      assert items[0].0 in KeySet(items) && items[short].0 in KeySet(items);
    }
  }

  ghost function EncodingsOf(out: seq<(H256, Bytes)>): set<Bytes> {
    set i | 0 <= i < |out| :: out[i].1
  }

  ghost predicate Hashed(c: Codec, out: seq<(H256, Bytes)>) {
    forall i :: 0 <= i < |out| ==> out[i].0 == c.keccak(out[i].1)
  }

  /** Encodings, each beside its digest. */
  ghost function Entitled(c: Codec, list: seq<Bytes>): (out: seq<(H256, Bytes)>)
    ensures |out| == |list|
  {
    seq(|list|, i requires 0 <= i < |list| => (c.keccak(list[i]), list[i]))
  }

  lemma EntitledAppend(c: Codec, s: seq<Bytes>, t: seq<Bytes>)
    ensures Entitled(c, s + t) == Entitled(c, s) + Entitled(c, t)
  {
  }

  lemma EntitledNodes(c: Codec, m: Entries)
    ensures Hashed(c, Entitled(c, NodeList(c, m))) && EncodingsOf(Entitled(c, NodeList(c, m))) == NodeSet(c, m)
  {
    hide NodeList, NodeSet;
    NodeListCovers(c, m);
    var list := NodeList(c, m);
    var out := Entitled(c, list);
    forall x
      ensures x in EncodingsOf(out) <==> x in NodeSet(c, m)
    {
      if x in list {
        var i :| 0 <= i < |list| && list[i] == x;
        assert out[i].1 == x;
      }
    }
  }

  method StoreNode(c: Codec, node: Node, out: seq<(H256, Bytes)>) returns (h: H256, out': seq<(H256, Bytes)>)
    ensures h == c.keccak(c.encode(node))
    ensures out' == out + Entitled(c, [c.encode(node)])
  {
    var bytes := c.encode(node);
    h := c.keccak(bytes);
    out' := out + [(h, bytes)];
  }

  /** Stores the trie of `m`, appending its nodes in an order that depends on `m` alone. */
  method StoreTree(c: Codec, items: Items, out: seq<(H256, Bytes)>, ghost m: Entries)
    returns (h: H256, out': seq<(H256, Bytes)>)
    requires Lists(items, m)
    ensures h == Root(c, m)
    ensures out' == out + Entitled(c, NodeList(c, m))
    decreases Height(m.Keys), 3
  {
    hide BuildNode, BelowList, Entitled;
    var node, below := BuildNodeCollected(c, items, out, m);
    EntitledAppend(c, BelowList(c, m), [c.encode(node)]);
    h, out' := StoreNode(c, node, below);
  }

  // The definition of `BuildNode`, case by case

  lemma LeafCase(c: Codec, m: Entries, k: Nibbles)
    requires m.Keys == {k}
    ensures BuildNode(c, m) == Leaf(k, m[k]) && BelowList(c, m) == []
  {
    hide Sub, Lcp;
    assert Singleton(m, k);
  }

  lemma ManyCase(m: Entries, j: Nibbles, k: Nibbles)
    requires j in m && k in m && j != k
    ensures m != map[] && !exists i :: Singleton(m, i)
  {
  }

  lemma ExtensionCase(c: Codec, m: Entries, j: Nibbles, k: Nibbles, p: Nibbles)
    requires j in m && k in m && j != k
    requires LongestCommonPrefix(p, m.Keys) && p != []
    ensures BuildNode(c, m) == Extension(p, Root(c, Sub(m, p))) && BelowList(c, m) == NodeList(c, Sub(m, p))
  {
    hide Sub, NodeList;
    ManyCase(m, j, k);
    LongestCommonPrefixUnique(p, Lcp(m.Keys), m.Keys);
  }

  lemma BranchCase(c: Codec, m: Entries, j: Nibbles, k: Nibbles, children: Children)
    requires j in m && k in m && j != k
    requires LongestCommonPrefix([], m.Keys)
    requires forall i: Nibble :: children[i] == ChildHash(c, m, i)
    ensures BuildNode(c, m) == Branch(children, Get(m, [])) && BelowList(c, m) == ListUpTo(c, m, 16)
  {
    hide Sub, Root, ListUpTo, ChildHash;
    ManyCase(m, j, k);
    LongestCommonPrefixUnique([], Lcp(m.Keys), m.Keys);
    assert BuildNode(c, m).children == children;
  }

  lemma NothingListed(c: Codec, m: Entries)
    ensures Entitled(c, ListUpTo(c, m, 0)) == []
  {
  }

  lemma ListGrows(c: Codec, m: Entries, i: Nibble, out: seq<(H256, Bytes)>)
    ensures out + Entitled(c, ListUpTo(c, m, i)) + Entitled(c, GroupList(c, m, i)) ==
            out + Entitled(c, ListUpTo(c, m, i + 1))
  {
    hide Entitled, GroupList;
    EntitledAppend(c, ListUpTo(c, m, i), GroupList(c, m, i));
  }

  lemma NothingEntitled(c: Codec)
    ensures Entitled(c, []) == []
  {
  }

  /** The recursive builder: it returns the root node and appends every node below it. */
  method BuildNodeCollected(c: Codec, items: Items, out: seq<(H256, Bytes)>, ghost m: Entries)
    returns (node: Node, out': seq<(H256, Bytes)>)
    requires Lists(items, m)
    ensures node == BuildNode(c, m)
    ensures out' == out + Entitled(c, BelowList(c, m))
    decreases Height(m.Keys), 2
  {
    ListsKeys(items, m);
    NothingEntitled(c);
    if |items| == 0 {
      return Empty, out;
    }
    assert items[0] == (items[0].0, items[0].1);
    if |items| == 1 {
      LeafCase(c, m, items[0].0);
      return Leaf(items[0].0, items[0].1), out;
    }
    assert items[1] == (items[1].0, items[1].1);
    hide BuildNode, BelowList, Sub, Entitled;
    var prefix := CommonPrefixLen(items);
    ghost var p := items[0].0[..prefix];
    if prefix > 0 {
      forall i | 0 <= i < |items|
        ensures p <= items[i].0
      {
        assert items[i].0 in KeySet(items);
      }
      var stripped := seq(|items|, i requires 0 <= i < |items| => (items[i].0[prefix..], items[i].1));
      StrippedLists(items, m, p, stripped);
      SubNonEmpty(m, p);
      ExtensionCase(c, m, items[0].0, items[1].0, p);
      var h, below := StoreTree(c, stripped, out, Sub(m, p));
      return Extension(items[0].0[..prefix], h), below;
    }
    assert p == [];
    node, out' := BuildBranch(c, items, out, m);
  }

  method BuildBranch(c: Codec, items: Items, out: seq<(H256, Bytes)>, ghost m: Entries)
    returns (node: Node, out': seq<(H256, Bytes)>)
    requires Lists(items, m)
    requires |items| > 1 && LongestCommonPrefix([], m.Keys)
    ensures node == BuildNode(c, m)
    ensures out' == out + Entitled(c, BelowList(c, m))
    decreases Height(m.Keys), 1
  {
    hide BuildNode, BelowList, Sub, NodeList, GroupList, ListUpTo, ChildHash, Entitled;
    var children: Children := [None, None, None, None, None, None, None, None,
                               None, None, None, None, None, None, None, None];
    out' := out;
    NothingListed(c, m);
    for i := 0 to 16
      invariant out' == out + Entitled(c, ListUpTo(c, m, i))
      invariant forall j: Nibble :: children[j] == if j < i then ChildHash(c, m, j) else None
    {
      var child;
      child, out' := StoreGroup(c, items, out', m, i);
      ListGrows(c, m, i, out);
      children := children[i := child];
    }
    var value := EmptyKeyValue(items, m);
    assert items[0] == (items[0].0, items[0].1) && items[1] == (items[1].0, items[1].1);
    BranchCase(c, m, items[0].0, items[1].0, children);
    node := Branch(children, value);
  }

  /** The child under nibble `i`, stored together with all nodes below it. */
  method StoreGroup(c: Codec, items: Items, out: seq<(H256, Bytes)>, ghost m: Entries, i: Nibble)
    returns (child: Option<H256>, out': seq<(H256, Bytes)>)
    requires Lists(items, m)
    ensures child == ChildHash(c, m, i)
    ensures out' == out + Entitled(c, GroupList(c, m, i))
    decreases Height(m.Keys), 0
  {
    hide BuildNode, BelowList, Sub, NodeList, Entitled;
    var group := Group(items, i);
    GroupLists(items, m, i);
    GroupEmpty(group, Sub(m, [i]));
    child, out' := None, out;
    NothingEntitled(c);
    if group != [] {
      var h;
      h, out' := StoreTree(c, group, out, Sub(m, [i]));
      child := Some(h);
    }
  }

  /** The last value listed under the empty key. */
  method EmptyKeyValue(items: Items, ghost m: Entries) returns (value: Option<Bytes>)
    requires Lists(items, m)
    ensures value == Get(m, [])
  {
    value := None;
    for i := 0 to |items|
      invariant forall j :: 0 <= j < i && items[j].0 == [] ==> value == Some(items[j].1)
      invariant value.Some? ==> ([], value.value) in items
    {
      if items[i].0 == [] {
        assert items[i] == ([], items[i].1);
        value := Some(items[i].1);
      }
    }
    if [] in m {
      assert ([], m[[]]) in items;
    }
  }

  lemma GroupEmpty(items: Items, m: Entries)
    requires Lists(items, m)
    ensures items == [] <==> m == map[]
  {
    ListsKeys(items, m);
    if items != [] {
      assert items[0].0 in KeySet(items);
    }
  }

  // ----- From pairs to root and nodes

  /** The same map with its keys split into nibbles. */
  ghost function NibbleMap(m: map<Bytes, Bytes>): (r: Entries)
    ensures forall k :: NibblesOf(k) in r <==> k in m
    ensures forall k :: k in m ==> r[NibblesOf(k)] == m[k]
    ensures forall n :: n in r ==> NibblesOf(BytesOf(n)) == n
  {
    assert forall k :: BytesOf(NibblesOf(k)) == k by {
      forall k { NibblesInvert(k); }
    }
    map n | n in (set k | k in m :: NibblesOf(k)) :: m[BytesOf(n)]
  }

  /** The root of the trie of a byte-keyed map. */
  ghost function MapRoot(c: Codec, m: map<Bytes, Bytes>): H256 {
    Root(c, NibbleMap(m))
  }

  method Enumerate(m: Entries) returns (items: Items)
    ensures Lists(items, m)
  {
    items := [];
    var left := m.Keys;
    while left != {}
      invariant left <= m.Keys
      invariant forall i :: 0 <= i < |items| ==> items[i].0 !in left
      invariant forall i, j :: 0 <= i < j < |items| ==> items[i].0 != items[j].0
      invariant forall k, v :: (k, v) in items <==> k in m && k !in left && m[k] == v
    {
      var k :| k in left;
      items := items + [(k, m[k])];
      left := left - {k};
    }
  }

  /**
   Root and encoded nodes for a pair list. The list of nodes, order included, depends only on the
   map of the pairs.
   */
  method PatriciaNodes(c: Codec, pairs: seq<(Bytes, Bytes)>) returns (root: H256, nodes: seq<(H256, Bytes)>)
    ensures root == MapRoot(c, MapOf(pairs))
    ensures nodes == Entitled(c, NodeList(c, NibbleMap(MapOf(pairs))))
    ensures Hashed(c, nodes) && EncodingsOf(nodes) == NodeSet(c, NibbleMap(MapOf(pairs)))
  {
    if pairs == [] {
      assert NibbleMap(MapOf(pairs)) == map[] by { hide NibblesOf, BytesOf; }
      root, nodes := StoreNode(c, Empty, []);
      EntitledNodes(c, map[]);
      return;
    }
    hide BuildNode, Below, NodeSet, NodeList, Entitled, NibblesOf, BytesOf, NibbleMap;
    EntitledNodes(c, NibbleMap(MapOf(pairs)));
    var m := CollectPairs(pairs);
    var items := Enumerate(m);
    root, nodes := StoreTree(c, items, [], m);
  }

  /** The ordered map the pairs are inserted into. */
  method CollectPairs(pairs: seq<(Bytes, Bytes)>) returns (m: Entries)
    ensures m == NibbleMap(MapOf(pairs))
  {
    m := map[];
    assert m == NibbleMap(MapOf(pairs[..0])) by { hide NibblesOf, BytesOf; }
    hide NibblesOf, BytesOf, NibbleMap;
    for i := 0 to |pairs|
      invariant m == NibbleMap(MapOf(pairs[..i]))
    {
      var key := ToNibbles(pairs[i].0);
      NibbleMapInsert(MapOf(pairs[..i]), pairs[i].0, pairs[i].1);
      assert pairs[..i + 1][..i] == pairs[..i];
      m := m[key := pairs[i].1];
    }
    assert pairs[..|pairs|] == pairs;
  }

  lemma NibbleMapInsert(m: map<Bytes, Bytes>, k: Bytes, v: Bytes)
    ensures NibbleMap(m[k := v]) == NibbleMap(m)[NibblesOf(k) := v]
  {
    hide NibblesOf, BytesOf, NibbleMap;
    var a, b := NibbleMap(m[k := v]), NibbleMap(m)[NibblesOf(k) := v];
    forall n
      ensures Get(a, n) == Get(b, n)
    {
      if n in a || n in b {
        assert NibblesOf(BytesOf(n)) == n;
      }
    }
    SameLookups(a, b);
  }

  // ----- Proving and verifying

  /** Every stored node decodes, makes progress on the key, and links only to stored nodes. */
  ghost predicate Closed(c: Codec, byHash: map<H256, Bytes>) {
    forall h :: h in byHash ==> c.keccak(byHash[h]) == h && Linked(c, byHash, byHash[h])
  }

  ghost predicate Linked(c: Codec, byHash: map<H256, Bytes>, enc: Bytes) {
    match c.decode(enc)
    case None => false
    case Some(Extension(path, child)) => path != [] && child in byHash
    case Some(Branch(children, _)) => forall i: Nibble :: children[i].Some? ==> children[i].value in byHash
    case _ => true
  }

  /** Every node of a trie is the root of the trie of some sub-map. */
  lemma {:induction false} NodeOrigin(c: Codec, m: Entries, b: Bytes) returns (m': Entries)
    requires b in NodeSet(c, m)
    ensures b == c.encode(BuildNode(c, m')) && NodeSet(c, m') <= NodeSet(c, m)
    decreases Height(m.Keys)
  {
    hide BuildNode, Sub, BelowUpTo;
    m' := m;
    if b != c.encode(BuildNode(c, m)) {
      if BuildNode(c, m).Extension? {
        ExtensionShape(c, m);
        SubNonEmpty(m, Lcp(m.Keys));
        m' := NodeOrigin(c, Sub(m, Lcp(m.Keys)), b);
      } else {
        var i := BelowUpToOrigin(c, m, b, 16);
        BranchShape(c, m, i);
        m' := NodeOrigin(c, Sub(m, [i]), b);
      }
    }
  }

  lemma {:induction false} BelowUpToOrigin(c: Codec, m: Entries, b: Bytes, n: nat) returns (i: Nibble)
    requires n <= 16 && b in BelowUpTo(c, m, n)
    ensures Sub(m, [i]) != map[] && b in NodeSet(c, Sub(m, [i]))
    decreases n
  {
    hide BuildNode, Sub, Below;
    if b in BelowUpTo(c, m, n - 1) {
      i := BelowUpToOrigin(c, m, b, n - 1);
    } else {
      i := n - 1;
    }
  }

  method IndexByHash(c: Codec, stored: seq<(H256, Bytes)>, ghost m: Entries) returns (byHash: map<H256, Bytes>)
    requires c.Faithful() && Hashed(c, stored) && EncodingsOf(stored) == NodeSet(c, m)
    ensures Closed(c, byHash) && Root(c, m) in byHash
    ensures forall h :: h in byHash ==> byHash[h] in NodeSet(c, m)
  {
    hide BuildNode, Below, NodeSet;
    byHash := map[];
    for i := 0 to |stored|
      invariant forall h :: h in byHash ==> byHash[h] in EncodingsOf(stored) && c.keccak(byHash[h]) == h
      invariant forall j :: 0 <= j < i ==> stored[j].0 in byHash
    {
      byHash := byHash[stored[i].0 := stored[i].1];
    }
    forall b | b in NodeSet(c, m)
      ensures c.keccak(b) in byHash
    {
      var j :| 0 <= j < |stored| && stored[j].1 == b;
    }
    RootInNodeSet(c, m);
    forall h | h in byHash
      ensures Linked(c, byHash, byHash[h])
    {
      StoredNodeLinked(c, m, byHash, byHash[h]);
    }
  }

  lemma StoredNodeLinked(c: Codec, m: Entries, byHash: map<H256, Bytes>, b: Bytes)
    requires c.Faithful() && b in NodeSet(c, m)
    requires forall x :: x in NodeSet(c, m) ==> c.keccak(x) in byHash
    ensures Linked(c, byHash, b)
  {
    hide BuildNode, Below, NodeSet, Sub;
    var m' := NodeOrigin(c, m, b);
    assert c.decode(b) == Some(BuildNode(c, m'));
    if BuildNode(c, m').Extension? {
      ExtensionShape(c, m');
      RootInNodeSet(c, Sub(m', Lcp(m'.Keys)));
    } else if BuildNode(c, m').Branch? {
      forall i: Nibble | BuildNode(c, m').children[i].Some?
        ensures BuildNode(c, m').children[i].value in byHash
      {
        BranchShape(c, m', i);
        RootInNodeSet(c, Sub(m', [i]));
      }
    }
  }

  /**
   The proof walk. Its output is accepted by the verifier with the same value whatever the
   hash function does, and that value is the lookup unless two trie nodes collide.
   */
  method Prove(c: Codec, pairs: seq<(Bytes, Bytes)>, key: Bytes) returns (p: TrieProof)
    requires c.Faithful()
    ensures p.root == MapRoot(c, MapOf(pairs))
    ensures VerifyFrom(c, p.root, NibblesOf(key), p.nodes) == Ok(p.value)
    ensures c.CollisionFree(NodeSet(c, NibbleMap(MapOf(pairs)))) ==> p.value == Get(MapOf(pairs), key)
  {
    hide BuildNode, Below, NodeSet, NibblesOf, BytesOf, NibbleMap, MapOf;
    ghost var m := NibbleMap(MapOf(pairs));
    var root, stored := PatriciaNodes(c, pairs);
    var byHash := IndexByHash(c, stored, m);
    var whole := ToNibbles(key);
    var nodes, value := ProveWalk(c, byHash, root, whole);
    p := TrieProof(root, nodes, value);
    if c.CollisionFree(NodeSet(c, m)) {
      var x, y := Sound(c, m, whole, nodes);
      assert x in nodes ==> x in NodeSet(c, m);
    }
  }

  method ProveWalk(c: Codec, byHash: map<H256, Bytes>, root: H256, whole: Nibbles)
    returns (nodes: seq<Bytes>, value: Option<Bytes>)
    requires Closed(c, byHash) && root in byHash
    ensures VerifyFrom(c, root, whole, nodes) == Ok(value)
    ensures forall b :: b in nodes ==> b in byHash.Values
  {
    var rest, expected := whole, root;
    nodes := [];
    assert forall more :: nodes + more == more;
    while true
      invariant expected in byHash
      invariant forall more :: VerifyFrom(c, root, whole, nodes + more) == VerifyFrom(c, expected, rest, more)
      invariant forall b :: b in nodes ==> b in byHash.Values
      decreases |rest|
    {
      var enc := byHash[expected];
      assert Linked(c, byHash, enc);
      var decoded := c.decode(enc);
      var node := decoded.value;
      ProveStep(c, root, whole, nodes, expected, rest, enc);
      nodes := nodes + [enc];
      assert nodes + [] == nodes;
      match node
      case Empty => return nodes, None;
      case Leaf(path, leaf) => return nodes, if path == rest then Some(leaf) else None;
      case Extension(path, child) =>
        if path <= rest {
          rest, expected := rest[|path|..], child;
        } else {
          return nodes, None;
        }
      case Branch(children, branchValue) =>
        if rest == [] {
          return nodes, branchValue;
        }
        var i := rest[0];
        rest := rest[1..];
        match children[i]
        case Some(h) => expected := h;
        case None => return nodes, None;
    }
  }

  lemma ProveStep(c: Codec, root: H256, whole: Nibbles, nodes: seq<Bytes>, expected: H256, rest: Nibbles, enc: Bytes)
    requires c.keccak(enc) == expected && c.decode(enc).Some?
    requires forall more :: VerifyFrom(c, root, whole, nodes + more) == VerifyFrom(c, expected, rest, more)
    ensures forall more ::
      VerifyFrom(c, root, whole, nodes + [enc] + more) == VerifyNode(c, c.decode(enc).value, rest, more)
  {
    forall more
      ensures VerifyFrom(c, root, whole, nodes + [enc] + more) == VerifyNode(c, c.decode(enc).value, rest, more)
    {
      assert nodes + [enc] + more == nodes + ([enc] + more);
      assert ([enc] + more)[1..] == more;
    }
  }

  method Verify(c: Codec, root: H256, key: Bytes, proof: seq<Bytes>) returns (r: Result<Option<Bytes>, ProofError>)
    ensures r == VerifyFrom(c, root, NibblesOf(key), proof)
  {
    if proof == [] {
      return Err(Incomplete);
    }
    var rest := ToNibbles(key);
    var expected := root;
    for i := 0 to |proof|
      invariant VerifyFrom(c, root, NibblesOf(key), proof) == VerifyFrom(c, expected, rest, proof[i..])
    {
      hide NibblesOf;
      var enc := proof[i];
      if c.keccak(enc) != expected {
        return Err(HashMismatch);
      }
      var decoded := c.decode(enc);
      if decoded.None? {
        return Err(InvalidNode);
      }
      assert proof[i..][1..] == proof[i + 1..];
      assert VerifyFrom(c, expected, rest, proof[i..]) == VerifyNode(c, decoded.value, rest, proof[i + 1..]);
      var last := i + 1 == |proof|;
      match decoded.value
      case Empty =>
        return if last then Ok(None) else Err(Incomplete);
      case Leaf(path, leaf) =>
        return if last then Ok(if path == rest then Some(leaf) else None) else Err(Incomplete);
      case Extension(path, child) =>
        if !(path <= rest) {
          return if last then Ok(None) else Err(Incomplete);
        }
        rest, expected := rest[|path|..], child;
        if last {
          return Err(Incomplete);
        }
      case Branch(children, branchValue) =>
        if rest == [] {
          return if last then Ok(branchValue) else Err(Incomplete);
        }
        var idx := rest[0];
        rest := rest[1..];
        match children[idx]
        case None => return if last then Ok(None) else Err(Incomplete);
        case Some(h) =>
          expected := h;
          if last {
            return Err(Incomplete);
          }
    }
    return Err(Incomplete);
  }

  // ----- Main results on pair lists

  /** Duplicate keys keep the last value. */
  lemma {:induction false} LastPairWins(pairs: seq<(Bytes, Bytes)>, key: Bytes)
    ensures match Get(MapOf(pairs), key)
            case None => forall i :: 0 <= i < |pairs| ==> pairs[i].0 != key
            case Some(v) => exists i :: 0 <= i < |pairs| && pairs[i] == (key, v)
                                        && forall j :: i < j < |pairs| ==> pairs[j].0 != key
  {
    if pairs != [] {
      var n := |pairs| - 1;
      LastPairWins(pairs[..n], key);
      if pairs[n].0 == key {
        assert pairs[n] == (key, pairs[n].1);
      }
    }
  }

  /** Soundness against the root of a map of byte keys. */
  lemma MapSound(c: Codec, m: map<Bytes, Bytes>, key: Bytes, proof: seq<Bytes>) returns (x: Bytes, y: Bytes)
    requires c.Faithful() && VerifyFrom(c, MapRoot(c, m), NibblesOf(key), proof).Ok?
    ensures VerifyFrom(c, MapRoot(c, m), NibblesOf(key), proof).value == Get(m, key)
            || (c.Collision(x, y) && x in proof && y in NodeSet(c, NibbleMap(m)))
  {
    hide Root, NodeSet, NibblesOf, BytesOf, NibbleMap, VerifyFrom;
    x, y := Sound(c, NibbleMap(m), NibblesOf(key), proof);
  }

  /** An accepted proof for `key` reports presence with the right value or true absence. */
  lemma ProofSoundness(c: Codec, pairs: seq<(Bytes, Bytes)>, key: Bytes, proof: seq<Bytes>) returns (x: Bytes, y: Bytes)
    requires c.Faithful()
    requires VerifyFrom(c, MapRoot(c, MapOf(pairs)), NibblesOf(key), proof).Ok?
    ensures VerifyFrom(c, MapRoot(c, MapOf(pairs)), NibblesOf(key), proof) == Ok(Get(MapOf(pairs), key))
            || (c.Collision(x, y) && x in proof && y in NodeSet(c, NibbleMap(MapOf(pairs))))
  {
    hide Root, NodeSet, NibblesOf, BytesOf, NibbleMap, MapOf, VerifyFrom;
    x, y := MapSound(c, MapOf(pairs), key, proof);
  }

  /** Equal roots and equal maps are the same thing, up to a collision between the two tries. */
  lemma PatriciaRootBinding(c: Codec, m: map<Bytes, Bytes>, n: map<Bytes, Bytes>) returns (x: Bytes, y: Bytes)
    requires c.Faithful()
    ensures m == n ==> MapRoot(c, m) == MapRoot(c, n)
    ensures MapRoot(c, m) == MapRoot(c, n) ==>
              m == n || (c.Collision(x, y) && x in NodeSet(c, NibbleMap(m)) && y in NodeSet(c, NibbleMap(n)))
  {
    hide Root, NodeSet, NibblesOf, BytesOf, NibbleMap;
    x, y := [], [];
    if MapRoot(c, m) == MapRoot(c, n) {
      x, y := RootBinding(c, NibbleMap(m), NibbleMap(n));
      if NibbleMap(m) == NibbleMap(n) {
        forall k
          ensures Get(m, k) == Get(n, k)
        {
          assert NibblesOf(k) in NibbleMap(m) <==> k in m;
        }
        SameLookups(m, n);
      }
    }
  }
}

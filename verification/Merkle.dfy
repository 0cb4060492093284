/** The batch root over trade-fact leaves: a level loop from the bottom that repeats
    an odd last node.  The hash (SHA-256, section 6.2 of FIPS 180-4) is a parameter,
    and nothing is assumed of it: where roots could agree by accident the laws hand
    over two hashed inputs that collide. */
module Merkle {
  import opened Text

  type Byte = b: int | 0 <= b < 256
  type Bytes = seq<Byte>
  type Hash = Bytes -> Bytes

  // ---- Hexadecimal text ----

  function HexDigit(c: char): Option<nat> {
    if '0' <= c <= '9' then Some(c as int - '0' as int)
    else if 'a' <= c <= 'f' then Some(c as int - 'a' as int + 10)
    else if 'A' <= c <= 'F' then Some(c as int - 'A' as int + 10)
    else None
  }

  function DigitChar(d: nat): char
    requires d < 16
  {
    if d < 10 then (d + '0' as int) as char else (d - 10 + 'a' as int) as char
  }

  /** bytes.fromhex: two digits of either case a byte, blanks allowed between bytes;
      None stands for its ValueError. */
  function FromHex(s: string): Option<Bytes> {
    if s == "" then Some([])
    else if IsSpace(s[0]) then FromHex(s[1..])
    else if |s| == 1 then None
    else
      var hi, lo := HexDigit(s[0]), HexDigit(s[1]);
      if hi.None? || lo.None? then None
      else
        var rest := FromHex(s[2..]);
        if rest.None? then None else Some([hi.value * 16 + lo.value] + rest.value)
  }

  function ToHex(bytes: Bytes): string {
    if bytes == [] then "" else [DigitChar(bytes[0] / 16), DigitChar(bytes[0] % 16)] + ToHex(bytes[1..])
  }

  lemma {:induction false} DigitRoundTrip(d: nat)
    requires d < 16
    ensures HexDigit(DigitChar(d)) == Some(d) && !IsSpace(DigitChar(d))
  {
  }

  lemma {:induction false} HexRoundTrip(bytes: Bytes)
    ensures FromHex(ToHex(bytes)) == Some(bytes)
  {
    if bytes != [] {
      hide DigitChar, HexDigit;
      HexRoundTrip(bytes[1..]);
      DigitRoundTrip(bytes[0] / 16);
      DigitRoundTrip(bytes[0] % 16);
      var s := ToHex(bytes);
      assert s[0] == DigitChar(bytes[0] / 16) && s[1] == DigitChar(bytes[0] % 16) && s[2..] == ToHex(bytes[1..]);
      assert bytes[0] / 16 * 16 + bytes[0] % 16 == bytes[0];
      assert [bytes[0]] + bytes[1..] == bytes;
    }
  }

  /** The k-th of sixteen digits is worth k in either case, and there are no others. */
  lemma {:induction false} DigitsExactly(c: char, k: nat)
    ensures HexDigit(c) == Some(k) <==> k < 16 && (c == "0123456789abcdef"[k] || c == "0123456789ABCDEF"[k])
  {
  }

  // ---- The loop, level by level ----

  function Padded(nodes: seq<Bytes>): seq<Bytes> {
    if |nodes| % 2 == 1 then nodes + [nodes[|nodes| - 1]] else nodes
  }

  /** One level: neighbours are hashed in pairs. */
  function Level(sha: Hash, nodes: seq<Bytes>): (parents: seq<Bytes>)
    ensures |parents| == (|nodes| + 1) / 2
  {
    var even := Padded(nodes);
    seq(|even| / 2, i requires 0 <= i < |even| / 2 => sha(even[2 * i] + even[2 * i + 1]))
  }

  function Pow2(k: nat): (n: nat)
    ensures n > 0
  {
    if k == 0 then 1 else 2 * Pow2(k - 1)
  }

  function Levels(sha: Hash, nodes: seq<Bytes>, k: nat): seq<Bytes>
    decreases k
  {
    if k == 0 then nodes else Levels(sha, Level(sha, nodes), k - 1)
  }

  /** The number of levels the loop runs on n nodes: 2^(k-1) < n <= 2^k. */
  function Height(n: nat): (k: nat)
    requires n > 0
    ensures n <= Pow2(k)
    ensures k > 0 ==> Pow2(k - 1) < n
  {
    if n == 1 then 0 else 1 + Height((n + 1) / 2)
  }

  // ---- The tree, from the top ----

  /** A complete tree of k levels over at most 2^k leaves: the left half of the leaf
      places is filled first, and a subtree that has no partner is paired with itself. */
  function Tree(sha: Hash, leaves: seq<Bytes>, k: nat): Bytes
    requires 0 < |leaves| <= Pow2(k)
    decreases k
  {
    if k == 0 then leaves[0]
    else
      var half := Pow2(k - 1);
      if |leaves| <= half then
        var left := Tree(sha, leaves, k - 1);
        sha(left + left)
      else
        sha(Tree(sha, leaves[..half], k - 1) + Tree(sha, leaves[half..], k - 1))
  }

  lemma {:induction false} LevelAt(sha: Hash, nodes: seq<Bytes>, even: seq<Bytes>, i: nat)
    requires even == Padded(nodes) && 2 * i + 1 < |even|
    ensures i < |Level(sha, nodes)| && Level(sha, nodes)[i] == sha(even[2 * i] + even[2 * i + 1])
  {
    hide Padded;
  }

  lemma {:induction false} PaddedIsEven(nodes: seq<Bytes>)
    ensures |Padded(nodes)| % 2 == 0 && |Padded(nodes)| == 2 * ((|nodes| + 1) / 2)
    ensures |nodes| % 2 == 0 ==> Padded(nodes) == nodes
  {
  }

  lemma {:induction false} PaddedConcat(left: seq<Bytes>, right: seq<Bytes>)
    requires |left| % 2 == 0
    ensures Padded(left + right) == left + Padded(right)
  {
    if right != [] {
      assert (left + right)[|left + right| - 1] == right[|right| - 1];
    }
  }

  lemma {:induction false} LevelSizes(sha: Hash, left: seq<Bytes>, right: seq<Bytes>) returns (h: nat, n: nat)
    requires |left| % 2 == 0
    ensures |left| == 2 * h && |Padded(right)| == 2 * n
    ensures |Level(sha, left)| == h && |Level(sha, right)| == n && |Level(sha, left + right)| == h + n
  {
    hide Level;
    PaddedIsEven(right);
    hide Padded;
    h, n := |left| / 2, (|right| + 1) / 2;
    assert |left + right| + 1 == 2 * h + (|right| + 1);
  }

  lemma {:induction false} AcrossSeam(left: seq<Bytes>, padded: seq<Bytes>, h: nat, i: nat)
    requires |left| == 2 * h && 2 * i + 1 < |padded|
    ensures (left + padded)[2 * (h + i)] == padded[2 * i] && (left + padded)[2 * (h + i) + 1] == padded[2 * i + 1]
  {
  }

  lemma {:induction false} SeamEqual(both: seq<Bytes>, l: seq<Bytes>, r: seq<Bytes>)
    requires |both| == |l| + |r|
    requires forall i: nat :: i < |l| ==> both[i] == l[i]
    requires forall i: nat :: i < |r| ==> both[|l| + i] == r[i]
    ensures both == l + r
  {
    assert forall j :: |l| <= j < |both| ==> both[j] == both[|l| + (j - |l|)];
  }

  lemma {:induction false} LevelOfHalves(sha: Hash, left: seq<Bytes>, right: seq<Bytes>)
    requires |left| % 2 == 0
    ensures Level(sha, left + right) == Level(sha, left) + Level(sha, right)
  {
    var l, r, both := Level(sha, left), Level(sha, right), Level(sha, left + right);
    var padded := Padded(right);
    PaddedConcat(left, right);
    PaddedIsEven(left);
    var h, n := LevelSizes(sha, left, right);
    hide Padded, Level;
    forall i: nat | i < h ensures both[i] == l[i] {
      LevelAt(sha, left, left, i);
      LevelAt(sha, left + right, left + padded, i);
    }
    forall i: nat | i < n ensures both[h + i] == r[i] {
      LevelAt(sha, right, padded, i);
      LevelAt(sha, left + right, left + padded, h + i);
      AcrossSeam(left, padded, h, i);
    }
    SeamEqual(both, l, r);
  }

  lemma {:induction false} Pow2Doubles(k: nat)
    ensures Pow2(k + 1) == 2 * Pow2(k) && Pow2(k) > 0
  {
  }

  lemma {:induction false} TreeOfOneSide(sha: Hash, leaves: seq<Bytes>, k: nat)
    requires 0 < |leaves| <= Pow2(k) && |leaves| <= Pow2(k + 1)
    ensures Tree(sha, leaves, k + 1) == sha(Tree(sha, leaves, k) + Tree(sha, leaves, k))
  {
  }

  lemma {:induction false} TreeOfTwoSides(sha: Hash, left: seq<Bytes>, right: seq<Bytes>, k: nat)
    requires |left| == Pow2(k) && 0 < |left| && 0 < |right| <= Pow2(k) && |left + right| <= Pow2(k + 1)
    ensures Tree(sha, left + right, k + 1) == sha(Tree(sha, left, k) + Tree(sha, right, k))
  {
    assert (left + right)[..|left|] == left && (left + right)[|left|..] == right;
  }

  lemma {:induction false} TreeOfLeaf(sha: Hash, leaves: seq<Bytes>)
    requires |leaves| == 1
    ensures Tree(sha, leaves, 0) == leaves[0] && Height(1) == 0
  {
  }

  lemma {:induction false} SmallLevel(sha: Hash, leaves: seq<Bytes>)
    requires 0 < |leaves| <= 2
    ensures Level(sha, leaves)[0] == sha(leaves[0] + leaves[|leaves| - 1])
  {
  }

  lemma {:induction false} TreeOfSmallLevel(sha: Hash, leaves: seq<Bytes>)
    requires 0 < |leaves| <= 2 && |leaves| <= Pow2(1)
    ensures Tree(sha, Level(sha, leaves), 0) == Tree(sha, leaves, 1)
  {
    hide Tree, Level;
    SmallLevel(sha, leaves);
    TreeOfLeaf(sha, Level(sha, leaves));
    if |leaves| == 1 {
      TreeOfLeaf(sha, leaves);
      TreeOfOneSide(sha, leaves, 0);
    } else {
      assert leaves == [leaves[0]] + [leaves[1]];
      TreeOfLeaf(sha, [leaves[0]]);
      TreeOfLeaf(sha, [leaves[1]]);
      TreeOfTwoSides(sha, [leaves[0]], [leaves[1]], 0);
    }
  }

  lemma {:induction false} TreeOfLevelHalves(sha: Hash, left: seq<Bytes>, right: seq<Bytes>, k: nat)
    requires 0 < k && |left| == Pow2(k) && 0 < |right| <= Pow2(k) && |left + right| <= Pow2(k + 1)
    ensures Tree(sha, Level(sha, left + right), k) == Tree(sha, left + right, k + 1)
    decreases k, 0
  {
    hide Level, Tree, Pow2;
    Pow2Doubles(k - 1);
    LevelOfHalves(sha, left, right);
    TreeOfLevel(sha, left, k - 1);
    TreeOfLevel(sha, right, k - 1);
    TreeOfTwoSides(sha, Level(sha, left), Level(sha, right), k - 1);
    TreeOfTwoSides(sha, left, right, k);
  }

  /** Building a level below the tree does not change the tree. */
  lemma {:induction false} TreeOfLevel(sha: Hash, leaves: seq<Bytes>, k: nat)
    requires 0 < |leaves| <= Pow2(k + 1)
    ensures Tree(sha, Level(sha, leaves), k) == Tree(sha, leaves, k + 1)
    decreases k
  {
    hide Level, Tree;
    if k == 0 {
      TreeOfSmallLevel(sha, leaves);
    } else {
      hide Pow2;
      var half := Pow2(k - 1);
      Pow2Doubles(k - 1);
      Pow2Doubles(k);
      if |leaves| <= Pow2(k) {
        TreeOfLevel(sha, leaves, k - 1);
        TreeOfOneSide(sha, Level(sha, leaves), k - 1);
        TreeOfOneSide(sha, leaves, k);
      } else {
        var left, right := leaves[..2 * half], leaves[2 * half..];
        assert leaves == left + right;
        TreeOfLevelHalves(sha, left, right, k);
      }
    }
  }

  lemma {:induction false} OneNode(sha: Hash, leaves: seq<Bytes>)
    requires 0 < |leaves| <= Pow2(0)
    ensures leaves == [Tree(sha, leaves, 0)] && |leaves| == 1
  {
  }

  /** The loop from the bottom computes the tree from the top: the root for
      2^(k-1) < n <= 2^k hashes the root of the first 2^(k-1) leaves with the
      self-paired root of the rest. */
  lemma {:induction false} LevelsAreTheTree(sha: Hash, leaves: seq<Bytes>, k: nat)
    requires 0 < |leaves| <= Pow2(k)
    ensures Levels(sha, leaves, k) == [Tree(sha, leaves, k)]
    decreases k
  {
    hide Level, Tree, Pow2;
    if k == 0 {
      OneNode(sha, leaves);
    } else {
      Pow2Doubles(k - 1);
      TreeOfLevel(sha, leaves, k - 1);
      LevelsAreTheTree(sha, Level(sha, leaves), k - 1);
    }
  }

  function Root(sha: Hash, leaves: seq<Bytes>): Bytes {
    if leaves == [] then sha([]) else Tree(sha, leaves, Height(|leaves|))
  }

  method LevelUp(sha: Hash, nodes: seq<Bytes>) returns (parents: seq<Bytes>)
    requires |nodes| > 1
    ensures parents == Level(sha, nodes)
  {
    var even := nodes;
    if |even| % 2 == 1 {
      even := even + [even[|even| - 1]];
    }
    parents := seq(|even| / 2, i requires 0 <= i < |even| / 2 => sha(even[2 * i] + even[2 * i + 1]));
  }

  function Decoded(leaves: seq<string>): (nodes: seq<Bytes>)
    ensures |nodes| == |leaves|
  {
    seq(|leaves|, i requires 0 <= i < |leaves| =>
      var node := FromHex(leaves[i]); if node.Some? then node.value else [])
  }

  method DecodeLeaves(leaves: seq<string>) returns (nodes: Option<seq<Bytes>>)
    ensures nodes.None? <==> exists i :: 0 <= i < |leaves| && FromHex(leaves[i]).None?
    ensures nodes.Some? ==> nodes.value == Decoded(leaves)
  {
    var done: seq<Bytes> := [];
    var i := 0;
    while i < |leaves|
      invariant 0 <= i <= |leaves| && done == Decoded(leaves)[..i]
      invariant forall j :: 0 <= j < i ==> FromHex(leaves[j]).Some?
    {
      hide FromHex;
      var node := FromHex(leaves[i]);
      if node.None? {
        return None;
      }
      done := done + [node.value];
      i := i + 1;
    }
    nodes := Some(done);
  }

  /** compute_merkle_root: None when a leaf is not hexadecimal. */
  method ComputeMerkleRoot(sha: Hash, leaves: seq<string>) returns (root: Option<string>)
    ensures root.None? <==> exists i :: 0 <= i < |leaves| && FromHex(leaves[i]).None?
    ensures root.Some? ==> root.value == ToHex(Root(sha, Decoded(leaves)))
  {
    hide FromHex, ToHex;
    if leaves == [] {
      return Some(ToHex(sha([])));
    }
    var decoded := DecodeLeaves(leaves);
    if decoded.None? {
      return None;
    }
    var nodes := decoded.value;
    hide Decoded, Level, Tree;
    while |nodes| > 1
      invariant |nodes| > 0 && Tree(sha, nodes, Height(|nodes|)) == Root(sha, Decoded(leaves))
      decreases |nodes|
    {
      hide Root;
      ghost var below := nodes;
      nodes := LevelUp(sha, nodes);
      TreeOfLevel(sha, below, Height(|nodes|));
    }
    TreeOfLeaf(sha, nodes);
    root := Some(ToHex(nodes[0]));
  }

  // ---- What the root binds ----

  /** Every input that is hashed to build the tree. */
  function Hashed(sha: Hash, leaves: seq<Bytes>, k: nat): set<Bytes>
    requires 0 < |leaves| <= Pow2(k)
    decreases k
  {
    if k == 0 then {}
    else
      var half := Pow2(k - 1);
      if |leaves| <= half then
        var left := Tree(sha, leaves, k - 1);
        Hashed(sha, leaves, k - 1) + {left + left}
      else
        Hashed(sha, leaves[..half], k - 1) + Hashed(sha, leaves[half..], k - 1)
        + {Tree(sha, leaves[..half], k - 1) + Tree(sha, leaves[half..], k - 1)}
  }

  /** Two different inputs, one hashed for each tree, with the same digest. */
  ghost predicate Collide(sha: Hash, xs: set<Bytes>, ys: set<Bytes>) {
    exists x, y :: x in xs && y in ys && x != y && sha(x) == sha(y)
  }

  ghost predicate Sized(nodes: seq<Bytes>, size: nat) {
    forall i :: 0 <= i < |nodes| ==> |nodes[i]| == size
  }

  lemma {:induction false} TreeSize(sha: Hash, leaves: seq<Bytes>, k: nat, size: nat, digest: nat)
    requires 0 < |leaves| <= Pow2(k) && Sized(leaves, size)
    requires forall x :: |sha(x)| == digest
    ensures |Tree(sha, leaves, k)| == if k == 0 then size else digest
  {
  }

  lemma {:induction false} CollideGrows(sha: Hash, xs: set<Bytes>, ys: set<Bytes>, xs': set<Bytes>, ys': set<Bytes>)
    requires xs <= xs' && ys <= ys'
    ensures Collide(sha, xs, ys) ==> Collide(sha, xs', ys')
  {
  }

  /** Two nodes from children of equal sizes: equal digests come from equal children,
      or from a collision. */
  lemma {:induction false} NodeBinds(sha: Hash, x: Bytes, x': Bytes, y: Bytes, y': Bytes, hx: set<Bytes>, hy: set<Bytes>)
    requires |x| == |y| && sha(x + x') == sha(y + y') && x + x' in hx && y + y' in hy
    ensures (x == y && x' == y') || Collide(sha, hx, hy)
  {
    if x + x' == y + y' {
      assert x == (x + x')[..|x|] && y == (y + y')[..|y|];
      assert x' == (x + x')[|x|..] && y' == (y + y')[|y|..];
    }
  }

  lemma {:induction false} HashedOfOneSide(sha: Hash, leaves: seq<Bytes>, k: nat)
    requires 0 < |leaves| <= Pow2(k) && |leaves| <= Pow2(k + 1)
    ensures Hashed(sha, leaves, k + 1) == Hashed(sha, leaves, k) + {Tree(sha, leaves, k) + Tree(sha, leaves, k)}
  {
  }

  lemma {:induction false} HashedOfTwoSides(sha: Hash, left: seq<Bytes>, right: seq<Bytes>, k: nat)
    requires |left| == Pow2(k) && 0 < |left| && 0 < |right| <= Pow2(k) && |left + right| <= Pow2(k + 1)
    ensures Hashed(sha, left + right, k + 1)
         == Hashed(sha, left, k) + Hashed(sha, right, k) + {Tree(sha, left, k) + Tree(sha, right, k)}
  {
    assert (left + right)[..|left|] == left && (left + right)[|left|..] == right;
  }

  lemma {:induction false} TreeBindsHalves(sha: Hash, xl: seq<Bytes>, xr: seq<Bytes>, yl: seq<Bytes>, yr: seq<Bytes>,
                                           k: nat, size: nat, digest: nat)
    requires |xl| == |yl| == Pow2(k) && 0 < |xl| && 0 < |xr| == |yr| <= Pow2(k)
    requires |xl + xr| <= Pow2(k + 1) && |yl + yr| <= Pow2(k + 1)
    requires Sized(xl, size) && Sized(xr, size) && Sized(yl, size) && Sized(yr, size)
    requires forall x :: |sha(x)| == digest
    requires Tree(sha, xl + xr, k + 1) == Tree(sha, yl + yr, k + 1)
    ensures (xl == yl && xr == yr) || Collide(sha, Hashed(sha, xl + xr, k + 1), Hashed(sha, yl + yr, k + 1))
    decreases k + 1, 0
  {
    hide Collide, Tree, Hashed, Pow2;
    var hx, hy := Hashed(sha, xl + xr, k + 1), Hashed(sha, yl + yr, k + 1);
    var x, x', y, y' := Tree(sha, xl, k), Tree(sha, xr, k), Tree(sha, yl, k), Tree(sha, yr, k);
    TreeOfTwoSides(sha, xl, xr, k);
    TreeOfTwoSides(sha, yl, yr, k);
    HashedOfTwoSides(sha, xl, xr, k);
    HashedOfTwoSides(sha, yl, yr, k);
    TreeSize(sha, xl, k, size, digest);
    TreeSize(sha, yl, k, size, digest);
    NodeBinds(sha, x, x', y, y', hx, hy);
    if x == y && x' == y' {
      TreeBinds(sha, xl, yl, k, size, digest);
      TreeBinds(sha, xr, yr, k, size, digest);
      CollideGrows(sha, Hashed(sha, xl, k), Hashed(sha, yl, k), hx, hy);
      CollideGrows(sha, Hashed(sha, xr, k), Hashed(sha, yr, k), hx, hy);
    }
  }

  lemma {:induction false} TreeBinds(sha: Hash, xs: seq<Bytes>, ys: seq<Bytes>, k: nat, size: nat, digest: nat)
    requires 0 < |xs| == |ys| <= Pow2(k) && Sized(xs, size) && Sized(ys, size)
    requires forall x :: |sha(x)| == digest
    requires Tree(sha, xs, k) == Tree(sha, ys, k)
    ensures xs == ys || Collide(sha, Hashed(sha, xs, k), Hashed(sha, ys, k))
    decreases k
  {
    hide Collide, Tree, Hashed, Pow2;
    if k == 0 {
      OneNode(sha, xs);
      OneNode(sha, ys);
    } else {
      var half := Pow2(k - 1);
      Pow2Doubles(k - 1);
      var hx, hy := Hashed(sha, xs, k), Hashed(sha, ys, k);
      if |xs| <= half {
        var x, y := Tree(sha, xs, k - 1), Tree(sha, ys, k - 1);
        TreeOfOneSide(sha, xs, k - 1);
        TreeOfOneSide(sha, ys, k - 1);
        HashedOfOneSide(sha, xs, k - 1);
        HashedOfOneSide(sha, ys, k - 1);
        TreeSize(sha, xs, k - 1, size, digest);
        TreeSize(sha, ys, k - 1, size, digest);
        NodeBinds(sha, x, x, y, y, hx, hy);
        if x == y {
          TreeBinds(sha, xs, ys, k - 1, size, digest);
          CollideGrows(sha, Hashed(sha, xs, k - 1), Hashed(sha, ys, k - 1), hx, hy);
        }
      } else {
        assert xs == xs[..half] + xs[half..] && ys == ys[..half] + ys[half..];
        TreeBindsHalves(sha, xs[..half], xs[half..], ys[..half], ys[half..], k - 1, size, digest);
      }
    }
  }

  /** A persisted batch (its root and its trade count) binds its leaves, for every
      count: two batches of leaves of one size that agree in both are equal, or two of
      the inputs hashed for them collide. */
  lemma {:induction false} RootAndCountBind(sha: Hash, xs: seq<Bytes>, ys: seq<Bytes>, size: nat, digest: nat)
    requires |xs| == |ys| > 0 && Sized(xs, size) && Sized(ys, size)
    requires forall x :: |sha(x)| == digest
    requires Root(sha, xs) == Root(sha, ys)
    ensures xs == ys || Collide(sha, Hashed(sha, xs, Height(|xs|)), Hashed(sha, ys, Height(|ys|)))
  {
    TreeBinds(sha, xs, ys, Height(|xs|), size, digest);
  }

  lemma {:induction false} SameRoot(sha: Hash, xs: seq<Bytes>, ys: seq<Bytes>, k: nat)
    requires xs != [] && ys != [] && Level(sha, xs) == Level(sha, ys)
    requires Height(|xs|) == Height(|ys|) == k + 1
    ensures Root(sha, xs) == Root(sha, ys)
  {
    hide Level, Tree, Height, Pow2;
    TreeOfLevel(sha, xs, k);
    TreeOfLevel(sha, ys, k);
  }

  lemma {:induction false} HeightHalves(n: nat, half: nat)
    requires n > 1 && (n + 1) / 2 == half
    ensures Height(n) == 1 + Height(half)
  {
  }

  lemma {:induction false} OddHeight(n: nat)
    requires n % 2 == 1 && n >= 3
    ensures Height(n) == Height(n + 1) == 1 + Height((n + 1) / 2)
  {
    hide Height;
    HeightHalves(n, (n + 1) / 2);
    HeightHalves(n + 1, (n + 1) / 2);
  }

  lemma {:induction false} SameLevel(sha: Hash, leaves: seq<Bytes>)
    requires |leaves| % 2 == 1
    ensures Level(sha, leaves + [leaves[|leaves| - 1]]) == Level(sha, leaves)
  {
    assert Padded(leaves + [leaves[|leaves| - 1]]) == Padded(leaves);
  }

  /** The count is needed: for every odd batch of three or more, repeating the last leaf
      leaves the root as it was. */
  lemma {:induction false} RepeatingTheLastLeaf(sha: Hash, leaves: seq<Bytes>)
    requires |leaves| % 2 == 1 && |leaves| >= 3
    ensures Root(sha, leaves + [leaves[|leaves| - 1]]) == Root(sha, leaves)
  {
    hide Root, Level, Height;
    SameLevel(sha, leaves);
    OddHeight(|leaves|);
    SameRoot(sha, leaves + [leaves[|leaves| - 1]], leaves, Height((|leaves| + 1) / 2));
  }

  /** Leaves and inner nodes are not told apart: for every batch of two or more, the batch of
      its parents has the same root with half the count. */
  lemma {:induction false} ParentsHaveTheSameRoot(sha: Hash, leaves: seq<Bytes>)
    requires |leaves| >= 2
    ensures |Level(sha, leaves)| < |leaves| && Root(sha, Level(sha, leaves)) == Root(sha, leaves)
  {
    var half := (|leaves| + 1) / 2;
    HeightHalves(|leaves|, half);
    hide Level, Tree, Height, Pow2;
    TreeOfLevel(sha, leaves, Height(half));
  }

  /** One size for all leaves is needed too: without it the boundary between two
      neighbours can move.  trade_fact_leaf gives every leaf 64 hexadecimal digits. */
  lemma {:induction false} BoundariesCanMove(sha: Hash, a: Byte, b: Byte, c: Byte)
    ensures [[a, b], [c]] != [[a], [b, c]]
    ensures Root(sha, [[a, b], [c]]) == Root(sha, [[a], [b, c]])
  {
    var xs, ys: seq<Bytes> := [[a, b], [c]], [[a], [b, c]];
    assert |xs[0]| != |ys[0]|;
    assert Height(2) == 1 && Pow2(0) == 1;
    assert Tree(sha, xs[..1], 0) + Tree(sha, xs[1..], 0) == [a, b, c] == Tree(sha, ys[..1], 0) + Tree(sha, ys[1..], 0);
  }

  // ---- Batches of trade facts ----

  /** A trade fact as its leaf sees it: the stored hash if there is one, and the
      canonical JSON text, as bytes, that is hashed otherwise. */
  datatype Fact = Fact(factHash: Option<string>, canonical: Bytes)

  function TradeFactLeaf(sha: Hash, fact: Fact): string {
    if fact.factHash.Some? && |fact.factHash.value| == 64 then Lower(fact.factHash.value)
    else ToHex(sha(fact.canonical))
  }

  function BuildLeaves(sha: Hash, facts: seq<Fact>): (leaves: seq<string>)
    ensures |leaves| == |facts|
  {
    seq(|facts|, i requires 0 <= i < |facts| => TradeFactLeaf(sha, facts[i]))
  }

  predicate HexDigits(s: string) {
    forall i :: 0 <= i < |s| ==> HexDigit(s[i]).Some?
  }

  /** A stored hash of 64 characters is a hexadecimal digest. */
  predicate StoredDigest(fact: Fact) {
    fact.factHash.Some? && |fact.factHash.value| == 64 ==> HexDigits(fact.factHash.value)
  }

  lemma {:induction false} LowerDigit(c: char)
    requires HexDigit(c).Some?
    ensures HexDigit(c).value < 16 && DigitChar(HexDigit(c).value) == LowerChar(c) && !IsSpace(c)
    ensures HexDigit(LowerChar(c)) == HexDigit(c)
  {
  }

  lemma {:induction false} ByteDigits(hi: nat, lo: nat, rest: Bytes)
    requires hi < 16 && lo < 16
    ensures ToHex([hi * 16 + lo] + rest) == [DigitChar(hi), DigitChar(lo)] + ToHex(rest)
  {
    hide DigitChar;
    var bytes: Bytes := [hi * 16 + lo] + rest;
    assert bytes[1..] == rest && bytes[0] / 16 == hi && bytes[0] % 16 == lo;
  }

  lemma {:induction false} LowerTwo(s: string)
    requires |s| >= 2
    ensures Lower(s) == [LowerChar(s[0]), LowerChar(s[1])] + Lower(s[2..])
  {
    hide LowerChar;
  }

  /** On an even number of digits, decoding loses nothing but the case. */
  lemma {:induction false} DigitsRoundTrip(s: string)
    requires HexDigits(s) && |s| % 2 == 0
    ensures FromHex(s).Some? && |FromHex(s).value| == |s| / 2 && ToHex(FromHex(s).value) == Lower(s)
  {
    if s != "" {
      hide DigitChar, HexDigit, LowerChar, IsSpace;
      LowerDigit(s[0]);
      LowerDigit(s[1]);
      DigitsRoundTrip(s[2..]);
      var hi, lo, rest := HexDigit(s[0]).value, HexDigit(s[1]).value, FromHex(s[2..]).value;
      assert FromHex(s).Some? && FromHex(s).value == [hi * 16 + lo] + rest;
      hide FromHex;
      ByteDigits(hi, lo, rest);
      LowerTwo(s);
    }
  }

  lemma {:induction false} LeafIsADigest(sha: Hash, fact: Fact)
    requires StoredDigest(fact) && |sha(fact.canonical)| == 32
    ensures var leaf := TradeFactLeaf(sha, fact);
            FromHex(leaf).Some? && |FromHex(leaf).value| == 32 && ToHex(FromHex(leaf).value) == leaf
  {
    hide FromHex, ToHex, HexDigit;
    if fact.factHash.Some? && |fact.factHash.value| == 64 {
      var leaf := TradeFactLeaf(sha, fact);
      forall i | 0 <= i < 64 ensures HexDigit(leaf[i]).Some? && LowerChar(leaf[i]) == leaf[i] {
        LowerDigit(fact.factHash.value[i]);
      }
      assert Lower(leaf) == leaf;
      DigitsRoundTrip(leaf);
    } else {
      HexRoundTrip(sha(fact.canonical));
    }
  }

  /** persist_merkle_batch: the stored root and count of a batch determine its leaves, or
      the hash has been made to collide. */
  lemma {:induction false} BatchBindsItsLeaves(sha: Hash, xs: seq<Fact>, ys: seq<Fact>)
    requires |xs| == |ys| > 0
    requires forall x :: |sha(x)| == 32
    requires (forall i :: 0 <= i < |xs| ==> StoredDigest(xs[i])) && (forall i :: 0 <= i < |ys| ==> StoredDigest(ys[i]))
    requires ToHex(Root(sha, Decoded(BuildLeaves(sha, xs)))) == ToHex(Root(sha, Decoded(BuildLeaves(sha, ys))))
    ensures var k, dx, dy := Height(|xs|), Decoded(BuildLeaves(sha, xs)), Decoded(BuildLeaves(sha, ys));
            BuildLeaves(sha, xs) == BuildLeaves(sha, ys) || Collide(sha, Hashed(sha, dx, k), Hashed(sha, dy, k))
  {
    hide Root, FromHex, ToHex, TradeFactLeaf, Hashed, Collide, StoredDigest;
    var lx, ly := BuildLeaves(sha, xs), BuildLeaves(sha, ys);
    var dx, dy := Decoded(lx), Decoded(ly);
    HexRoundTrip(Root(sha, dx));
    HexRoundTrip(Root(sha, dy));
    forall i | 0 <= i < |xs|
      ensures |dx[i]| == 32 && ToHex(dx[i]) == lx[i] && |dy[i]| == 32 && ToHex(dy[i]) == ly[i]
    {
      LeafIsADigest(sha, xs[i]);
      LeafIsADigest(sha, ys[i]);
    }
    RootAndCountBind(sha, dx, dy, 32, 32);
    if dx == dy {
      forall i | 0 <= i < |xs| ensures lx[i] == ly[i] {
        assert lx[i] == ToHex(dx[i]) && ly[i] == ToHex(dy[i]);
      }
      assert lx == ly;
    }
  }
}

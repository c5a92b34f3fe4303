/** The structural representation of arrays: a balanced tree of chunks of at most sixteen elements. */
module ArrayRepr {
  import opened Wrappers
  import opened Types

  const CHUNK_SIZE: nat := 16

  function DivCeil(len: nat): nat {
    (len + CHUNK_SIZE - 1) / CHUNK_SIZE
  }

  function Min(x: int, y: int): int { if x <= y then x else y }

  function Max(x: int, y: int): int { if x >= y then x else y }

  function SplitLen(len: nat): (r: nat)
    ensures len > CHUNK_SIZE ==> 0 < r < len
  {
    if len <= CHUNK_SIZE then len
    else Max(Min(DivCeil(len) / 2 * CHUNK_SIZE, len - 1), 1)
  }

  function MetaNamed(name: string, args: seq<Ty>): Ty {
    Named(None, name, args)
  }

  function Digit(d: nat): char
    requires d < 10
  {
    "0123456789"[d]
  }

  function Decimal(n: nat): string {
    if n < 10 then [Digit(n)] else Decimal(n / 10) + [Digit(n % 10)]
  }

  function ChunkName(len: nat): string {
    "ArrayChunk" + Decimal(len)
  }

  function OwnedLeafTy(t: Ty): Ty
    decreases t, 0
  {
    if t.Array? then ArrayReprTy(t.len, t.elem, false) else t
  }

  function ArrayReprTy(len: nat, elem: Ty, borrowed: bool): Ty
    decreases elem, 1, len
  {
    if len == 0 then MetaNamed("ArrayNil", [])
    else if len <= CHUNK_SIZE then
      MetaNamed(ChunkName(len), [if borrowed then elem else OwnedLeafTy(elem)])
    else
      var split := SplitLen(len);
      MetaNamed("ArrayCat", [ArrayReprTy(split, elem, borrowed), ArrayReprTy(len - split, elem, borrowed)])
  }

  /** `meta_array_expansion_cost`, with arithmetic checked against the largest machine size. */
  function ExpansionCost(len: nat, elem: Ty, max: nat): Option<nat>
    decreases elem
  {
    var elemCost := if elem.Array? then ExpansionCost(elem.len, elem.elem, max) else Some(1);
    if elemCost.None? then None
    else
      var elementCost := len * elemCost.value;
      if elementCost > max then None
      else if len == 0 then Some(1)
      else
        var chunks := DivCeil(len);
        var cats := chunks - 1;
        if elementCost + chunks > max then None
        else if elementCost + chunks + cats > max then None
        else Some(elementCost + chunks + cats)
  }

  // ---- The tree behind the type

  datatype Tree = Nil | Chunk(size: nat, leaf: Tree) | Cat(left: Tree, right: Tree) | Element(ty: Ty)

  function Build(len: nat, leaf: Tree): Tree
    decreases len
  {
    if len == 0 then Nil
    else if len <= CHUNK_SIZE then Chunk(len, leaf)
    else Cat(Build(SplitLen(len), leaf), Build(len - SplitLen(len), leaf))
  }

  /** The tree of a whole array type, element arrays expanded in turn. */
  function TreeOf(len: nat, elem: Ty): Tree
    decreases elem
  {
    Build(len, if elem.Array? then TreeOf(elem.len, elem.elem) else Element(elem))
  }

  function Encode(t: Tree): Ty {
    match t
    case Nil => MetaNamed("ArrayNil", [])
    case Chunk(size, leaf) => MetaNamed("ArrayChunk" + Decimal(size), [Encode(leaf)])
    case Cat(left, right) => MetaNamed("ArrayCat", [Encode(left), Encode(right)])
    case Element(ty) => ty
  }

  function ReadDecimal(digits: string): int {
    if digits == [] then 0
    else 10 * ReadDecimal(digits[..|digits| - 1]) + (digits[|digits| - 1] as int - '0' as int)
  }

  /** The digits read as the number, without a leading zero. */
  ghost predicate Spells(digits: string, n: nat) {
    digits != [] && ReadDecimal(digits) == n && (digits[0] == '0' ==> n == 0)
  }

  lemma SpellsOne(d: nat)
    requires d < 10
    ensures Digit(d) as int == '0' as int + d && Spells([Digit(d)], d)
  {
    assert [Digit(d)][..0] == [];
  }

  lemma SpellsMore(digits: string, n: nat, d: nat)
    requires Spells(digits, n) && n > 0 && d < 10
    ensures Spells(digits + [Digit(d)], 10 * n + d)
  {
    SpellsOne(d);
    assert (digits + [Digit(d)])[..|digits|] == digits;
  }

  /** The number in the name of a chunk is its size. */
  lemma {:induction false} DecimalSpells(n: nat)
    ensures Spells(Decimal(n), n)
    decreases n
  {
    if n < 10 {
      SpellsOne(n);
    } else {
      DecimalSpells(n / 10);
      SpellsMore(Decimal(n / 10), n / 10, n % 10);
    }
  }

  lemma ChunkEncodes(size: nat, leaf: Tree)
    ensures Encode(Chunk(size, leaf)) == MetaNamed(ChunkName(size), [Encode(leaf)])
  {
  }

  lemma ShortEncodes(len: nat, elem: Ty, borrowed: bool, leaf: Tree)
    requires len <= CHUNK_SIZE && Encode(leaf) == if borrowed then elem else OwnedLeafTy(elem)
    ensures ArrayReprTy(len, elem, borrowed) == Encode(Build(len, leaf))
  {
    ChunkEncodes(len, leaf);
  }

  lemma LongRepr(len: nat, elem: Ty, borrowed: bool, split: nat)
    requires len > CHUNK_SIZE && split == SplitLen(len)
    ensures ArrayReprTy(len, elem, borrowed) ==
            MetaNamed("ArrayCat", [ArrayReprTy(split, elem, borrowed), ArrayReprTy(len - split, elem, borrowed)])
  {
  }

  lemma LongTree(len: nat, leaf: Tree, split: nat)
    requires len > CHUNK_SIZE && split == SplitLen(len)
    ensures Encode(Build(len, leaf)) ==
            MetaNamed("ArrayCat", [Encode(Build(split, leaf)), Encode(Build(len - split, leaf))])
  {
    assert Build(len, leaf) == Cat(Build(split, leaf), Build(len - split, leaf));
  }

  ghost predicate Encodes(len: nat, elem: Ty, borrowed: bool, leaf: Tree) {
    match Some(len)
    case Some(n) => ArrayReprTy(n, elem, borrowed) == Encode(Build(n, leaf))
  }

  lemma LongEncodes(len: nat, elem: Ty, borrowed: bool, leaf: Tree, split: nat)
    requires len > CHUNK_SIZE && split == SplitLen(len)
    requires Encodes(split, elem, borrowed, leaf) && Encodes(len - split, elem, borrowed, leaf)
    ensures Encodes(len, elem, borrowed, leaf)
  {
    LongRepr(len, elem, borrowed, split);
    LongTree(len, leaf, split);
  }

  lemma {:induction false} BuildEncodes(len: nat, elem: Ty, borrowed: bool, leaf: Tree)
    requires Encode(leaf) == if borrowed then elem else OwnedLeafTy(elem)
    ensures Encodes(len, elem, borrowed, leaf)
    decreases len
  {
    if len > CHUNK_SIZE {
      var split := SplitLen(len);
      BuildEncodes(split, elem, borrowed, leaf);
      BuildEncodes(len - split, elem, borrowed, leaf);
      LongEncodes(len, elem, borrowed, leaf, split);
    } else {
      ShortEncodes(len, elem, borrowed, leaf);
    }
  }

  /** The owned representation type spells out the fully expanded tree. */
  lemma {:induction false} ReprEncodesTree(len: nat, elem: Ty)
    ensures ArrayReprTy(len, elem, false) == Encode(TreeOf(len, elem))
    decreases elem
  {
    if elem.Array? {
      ReprEncodesTree(elem.len, elem.elem);
      BuildEncodes(len, elem, false, TreeOf(elem.len, elem.elem));
    } else {
      BuildEncodes(len, elem, false, Element(elem));
    }
  }

  // ---- Shape

  /** Chunk sizes from left to right, at the level of one array. */
  function Sizes(t: Tree): seq<nat> {
    match t
    case Chunk(size, _) => [size]
    case Cat(left, right) => Sizes(left) + Sizes(right)
    case _ => []
  }

  function Cats(t: Tree): nat {
    if t.Cat? then 1 + Cats(t.left) + Cats(t.right) else 0
  }

  function Depth(t: Tree): nat {
    if t.Cat? then 1 + Max(Depth(t.left), Depth(t.right)) else 0
  }

  function Pow2(n: nat): nat {
    if n == 0 then 1 else 2 * Pow2(n - 1)
  }

  /** Full chunks, then what is left. */
  function ChunkSizes(len: nat): (r: seq<nat>)
    ensures len > 0 ==> |r| > 0
  {
    if len == 0 then []
    else if len <= CHUNK_SIZE then [len]
    else [CHUNK_SIZE] + ChunkSizes(len - CHUNK_SIZE)
  }

  function Sum(s: seq<nat>): nat {
    if s == [] then 0 else s[0] + Sum(s[1..])
  }

  lemma {:induction false} ChunkSizesFacts(len: nat)
    ensures Sum(ChunkSizes(len)) == len && |ChunkSizes(len)| == DivCeil(len)
    ensures len > 0 ==> 0 < ChunkSizes(len)[|ChunkSizes(len)| - 1] <= CHUNK_SIZE
    ensures forall i :: 0 <= i < |ChunkSizes(len)| - 1 ==> ChunkSizes(len)[i] == CHUNK_SIZE
  {
    if len > CHUNK_SIZE {
      ChunkSizesFacts(len - CHUNK_SIZE);
      assert ChunkSizes(len)[1..] == ChunkSizes(len - CHUNK_SIZE);
    }
  }

  lemma ChunkSizesStep(len: nat)
    ensures ChunkSizes(len + CHUNK_SIZE) == [CHUNK_SIZE] + ChunkSizes(len)
  {
    if len == 0 {
      assert [CHUNK_SIZE] + ChunkSizes(len) == [CHUNK_SIZE];
    }
  }

  lemma {:induction false} ChunkSizesSplit(chunks: nat, rest: nat)
    requires rest > 0
    ensures ChunkSizes(chunks * CHUNK_SIZE + rest) == ChunkSizes(chunks * CHUNK_SIZE) + ChunkSizes(rest)
    decreases chunks
  {
    if chunks == 0 {
      assert [] + ChunkSizes(rest) == ChunkSizes(rest);
    } else {
      ChunkSizesSplit(chunks - 1, rest);
      var less := (chunks - 1) * CHUNK_SIZE;
      ChunkSizesStep(less);
      ChunkSizesStep(less + rest);
      assert chunks * CHUNK_SIZE == less + CHUNK_SIZE;
      assert [CHUNK_SIZE] + (ChunkSizes(less) + ChunkSizes(rest)) == [CHUNK_SIZE] + ChunkSizes(less) + ChunkSizes(rest);
    }
  }

  lemma SplitIsWhole(len: nat)
    requires len > CHUNK_SIZE
    ensures SplitLen(len) == DivCeil(len) / 2 * CHUNK_SIZE
    ensures DivCeil(SplitLen(len)) == DivCeil(len) / 2
    ensures DivCeil(len - SplitLen(len)) == DivCeil(len) - DivCeil(len) / 2
  {
  }

  /** Left to right the tree holds full chunks and then one chunk with the rest. */
  lemma {:induction false} BuildSizes(len: nat, leaf: Tree)
    ensures Sizes(Build(len, leaf)) == ChunkSizes(len)
    decreases len
  {
    if len > CHUNK_SIZE {
      BuildSizes(SplitLen(len), leaf);
      BuildSizes(len - SplitLen(len), leaf);
      SplitIsWhole(len);
      ChunkSizesSplit(DivCeil(len) / 2, len - SplitLen(len));
    }
  }

  lemma {:induction false} BuildCats(len: nat, leaf: Tree)
    requires len > 0
    ensures Cats(Build(len, leaf)) == DivCeil(len) - 1
    decreases len
  {
    if len > CHUNK_SIZE {
      BuildCats(SplitLen(len), leaf);
      BuildCats(len - SplitLen(len), leaf);
      SplitIsWhole(len);
    }
  }

  /** The leaves sum to the length, all but the last are full, and there is one concatenation fewer
      than there are chunks. */
  lemma {:induction false} TreeShape(len: nat, leaf: Tree)
    requires len > 0
    ensures var sizes := Sizes(Build(len, leaf));
            && Sum(sizes) == len && |sizes| == (len + 15) / 16
            && (forall i :: 0 <= i < |sizes| - 1 ==> sizes[i] == 16) && 0 < sizes[|sizes| - 1] <= 16
            && Cats(Build(len, leaf)) == |sizes| - 1
  {
    BuildSizes(len, leaf);
    ChunkSizesFacts(len);
    BuildCats(len, leaf);
  }

  lemma {:induction false} Pow2Monotone(m: nat, n: nat)
    requires m <= n
    ensures 0 < Pow2(m) <= Pow2(n)
    decreases n
  {
    if m < n {
      Pow2Monotone(m, n - 1);
    } else if m > 0 {
      Pow2Monotone(m - 1, n - 1);
    }
  }

  /** The depth is the binary logarithm of the number of chunks, rounded up. */
  ghost predicate IsLog(chunks: nat, depth: nat) {
    chunks <= Pow2(depth) && (depth > 0 ==> Pow2(depth - 1) < chunks)
  }

  lemma {:induction false} BuildDepth(len: nat, leaf: Tree)
    requires len > 0
    ensures IsLog(DivCeil(len), Depth(Build(len, leaf)))
    decreases len
  {
    if len > CHUNK_SIZE {
      var split := SplitLen(len);
      BuildDepth(split, leaf);
      BuildDepth(len - split, leaf);
      SplitIsWhole(len);
      DeeperSide(DivCeil(split), Depth(Build(split, leaf)), DivCeil(len - split), Depth(Build(len - split, leaf)));
    }
  }

  lemma DeeperSide(left: nat, leftDepth: nat, right: nat, rightDepth: nat)
    requires 0 < left <= right <= left + 1 && IsLog(left, leftDepth) && IsLog(right, rightDepth)
    ensures IsLog(left + right, 1 + Max(leftDepth, rightDepth))
  {
    if leftDepth > rightDepth {
      Pow2Monotone(rightDepth, leftDepth - 1);
    }
    Pow2Monotone(leftDepth, rightDepth);
    if rightDepth > 0 {
      assert Pow2(rightDepth) == 2 * Pow2(rightDepth - 1);
      assert Pow2(rightDepth - 1) <= right - 1;
    }
  }

  // ---- Cost

  /** Nodes of the tree when every element of a chunk is expanded separately. */
  function Nodes(t: Tree): nat {
    match t
    case Nil => 1
    case Chunk(size, leaf) => 1 + size * Nodes(leaf)
    case Cat(left, right) => 1 + Nodes(left) + Nodes(right)
    case Element(_) => 1
  }

  lemma {:induction false} BuildNodes(len: nat, leaf: Tree)
    requires len > 0
    ensures Nodes(Build(len, leaf)) == len * Nodes(leaf) + DivCeil(len) + (DivCeil(len) - 1)
    decreases len
  {
    if len > CHUNK_SIZE {
      var split := SplitLen(len);
      BuildNodes(split, leaf);
      BuildNodes(len - split, leaf);
      SplitIsWhole(len);
      assert split * Nodes(leaf) + (len - split) * Nodes(leaf) == len * Nodes(leaf);
    }
  }

  /** No array level of the type expands to more than `max` nodes. */
  predicate Fits(len: nat, elem: Ty, max: nat)
    decreases elem
  {
    Nodes(TreeOf(len, elem)) <= max && (elem.Array? ==> Fits(elem.len, elem.elem, max))
  }

  /** The cost of one level, when an element costs as many nodes as its tree has. */
  lemma LevelCost(len: nat, elem: Ty, max: nat, leaf: Tree)
    requires max > 0 && TreeOf(len, elem) == Build(len, leaf) && (elem.Array? ==> Fits(elem.len, elem.elem, max))
    requires (if elem.Array? then ExpansionCost(elem.len, elem.elem, max) else Some(1)) == Some(Nodes(leaf))
    ensures ExpansionCost(len, elem, max) == if Fits(len, elem, max) then Some(Nodes(TreeOf(len, elem))) else None
  {
    if len > 0 {
      BuildNodes(len, leaf);
    }
  }

  /** The cost is the node count of the expanded tree, and it is missing exactly when some level of the
      type does not fit. */
  lemma {:induction false} CostIsNodes(len: nat, elem: Ty, max: nat)
    requires max > 0
    ensures ExpansionCost(len, elem, max) == if Fits(len, elem, max) then Some(Nodes(TreeOf(len, elem))) else None
    decreases elem
  {
    if elem.Array? {
      CostIsNodes(elem.len, elem.elem, max);
      if Fits(elem.len, elem.elem, max) {
        LevelCost(len, elem, max, TreeOf(elem.len, elem.elem));
      }
    } else {
      LevelCost(len, elem, max, Element(elem));
    }
  }
}

// The two-level skip list over the blocks of a posting list.
module SkipLists {
  import opened Bits
  import opened PForDelta

  const SKIP_INTERVAL: nat := 128
  const NODE_SIZE: nat := 24

  datatype FindResult = NotFound | Found(byteOffset: nat, blockIndex: nat)

  datatype Result<+T> = Ok(value: T) | Error(message: string)

  ghost predicate Sorted(nodes: seq<SkipNode>) {
    forall i, j :: 0 <= i < j < |nodes| ==> nodes[i].maxDocId <= nodes[j].maxDocId
  }

  function Groups(n: nat): nat {
    (n + SKIP_INTERVAL - 1) / SKIP_INTERVAL
  }

  // Last level-0 node of group g.
  function LastOf(n: nat, g: nat): (l: nat)
    requires g < Groups(n)
    ensures SKIP_INTERVAL * g <= l < n
  {
    Min(SKIP_INTERVAL * g + SKIP_INTERVAL - 1, n - 1)
  }

  ghost function MaxScore(nodes: seq<SkipNode>): nat {
    if nodes == [] then 0
    else
      var front := MaxScore(nodes[..|nodes| - 1]);
      var s := nodes[|nodes| - 1].maxScore;
      if s > front then s else front
  }

  // Node g of level 1 stands for 128 nodes of level 0: the offset of the
  // first, the largest document, the best score.
  ghost predicate IsGroup(level0: seq<SkipNode>, g: nat, node: SkipNode)
    requires g < Groups(|level0|)
  {
    var last := LastOf(|level0|, g);
    node == SkipNode(level0[last].maxDocId, level0[SKIP_INTERVAL * g].byteOffset,
                     MaxScore(level0[SKIP_INTERVAL * g..last + 1]), 0)
  }

  datatype SkipList = SkipList(level0: seq<SkipNode>, level1: seq<SkipNode>)
  {
    ghost predicate Valid() {
      && Sorted(level0)
      && |level1| == (if |level0| <= SKIP_INTERVAL then 0 else Groups(|level0|))
      && forall g :: 0 <= g < |level1| ==> IsGroup(level0, g, level1[g])
    }

    // The first block whose largest document is at or after the target: the
    // answer of a scan over all blocks, found through level 1.
    method Find(target: nat) returns (r: FindResult)
      requires Valid()
      ensures r.NotFound? ==> forall i :: 0 <= i < |level0| ==> level0[i].maxDocId < target
      ensures r.Found? ==> r.blockIndex < |level0| && r.byteOffset == level0[r.blockIndex].byteOffset
      ensures r.Found? ==> target <= level0[r.blockIndex].maxDocId
                           && forall i :: 0 <= i < r.blockIndex ==> level0[i].maxDocId < target
    {
      if level0 == [] { return NotFound; }
      var l0Start := 0;
      if level1 != [] {
        var g := 0;
        while level1[g].maxDocId < target
          invariant 0 <= g < |level1|
          invariant g > 0 ==> level1[g - 1].maxDocId < target
          decreases |level1| - g
        {
          if g == |level1| - 1 {
            assert IsGroup(level0, g, level1[g]);
            return NotFound;
          }
          g := g + 1;
        }
        l0Start := g * SKIP_INTERVAL;
        GroupsBefore(level0, level1, g, target);
      }
      var i := l0Start;
      while i < |level0|
        invariant l0Start <= i <= |level0|
        invariant forall j :: 0 <= j < i ==> level0[j].maxDocId < target
      {
        if level0[i].maxDocId >= target {
          return Found(level0[i].byteOffset, i);
        }
        i := i + 1;
      }
      return NotFound;
    }

    method Serialize() returns (buf: seq<byte>)
      requires Writable()
      ensures buf == Bytes()
    {
      buf := Le32(|level0|) + Le32(|level1|);
      if level0 != [] {
        buf := buf + NodesBytes(level0);
      }
      if level1 != [] {
        buf := buf + NodesBytes(level1);
      }
    }

    ghost predicate Writable() {
      && |level0| <= MAX_U32 && |level1| <= MAX_U32
      && (forall n :: n in level0 ==> InFields(n)) && (forall n :: n in level1 ==> InFields(n))
    }

    // Counts, then the nodes of both levels.
    ghost function Bytes(): (s: seq<byte>)
      requires Writable()
      ensures |s| == 8 + NODE_SIZE * |level0| + NODE_SIZE * |level1|
    {
      Le32(|level0|) + Le32(|level1|) + NodesBytes(level0) + NodesBytes(level1)
    }
  }

  // If the group before ends before the target, so does all before group g.
  lemma GroupsBefore(level0: seq<SkipNode>, level1: seq<SkipNode>, g: nat, target: nat)
    requires Sorted(level0) && g < |level1| <= Groups(|level0|)
    requires g > 0 ==> IsGroup(level0, g - 1, level1[g - 1]) && level1[g - 1].maxDocId < target
    ensures g * SKIP_INTERVAL <= |level0| && forall i :: 0 <= i < g * SKIP_INTERVAL ==> level0[i].maxDocId < target
  {
    hide MaxScore;
  }

  // The best score of the nodes from lo to hi.
  method TopScore(level0: seq<SkipNode>, lo: nat, hi: nat) returns (best: nat)
    requires lo <= hi <= |level0|
    ensures best == MaxScore(level0[lo..hi])
  {
    best := 0;
    for j := lo to hi
      invariant best == MaxScore(level0[lo..j])
    {
      assert level0[lo..j + 1][..j - lo] == level0[lo..j];
      best := if best < level0[j].maxScore then level0[j].maxScore else best;
    }
  }

  method BuildLevel1(level0: seq<SkipNode>) returns (level1: seq<SkipNode>)
    requires Sorted(level0)
    ensures SkipList(level0, level1).Valid()
  {
    level1 := [];
    if |level0| <= SKIP_INTERVAL { return; }
    var i := 0;
    while i < |level0|
      invariant |level1| <= Groups(|level0|) && i == SKIP_INTERVAL * |level1|
      invariant forall g :: 0 <= g < |level1| ==> IsGroup(level0, g, level1[g])
    {
      var last := Min(i + SKIP_INTERVAL - 1, |level0| - 1);
      var best := TopScore(level0, i, last + 1);
      level1 := level1 + [SkipNode(level0[last].maxDocId, level0[i].byteOffset, best, 0)];
      i := i + SKIP_INTERVAL;
    }
  }

  // ---------------------------------------------------------------- bytes

  predicate InFields(n: SkipNode) {
    n.maxDocId <= MAX_U32 && n.byteOffset < 0x1_0000_0000_0000_0000 && n.maxScore <= MAX_U32 && n.docCount <= MAX_U32
  }

  // The struct as it lies in memory: four bytes of padding after the first field.
  function NodeBytes(n: SkipNode): (s: seq<byte>)
    requires InFields(n)
    ensures |s| == NODE_SIZE
  {
    Le32(n.maxDocId) + [0, 0, 0, 0] + Le64(n.byteOffset) + Le32(n.maxScore) + Le32(n.docCount)
  }

  function NodeAt(s: seq<byte>, i: nat): SkipNode
    requires i + NODE_SIZE <= |s|
  {
    SkipNode(Get32(s, i), Get64(s, i + 8), Get32(s, i + 16), Get32(s, i + 20))
  }

  lemma NodeBack(n: SkipNode)
    requires InFields(n)
    ensures NodeAt(NodeBytes(n), 0) == n
  {
    FieldsBack(n.maxDocId);
    FieldsBack(n.byteOffset % 0x1_0000_0000);
    FieldsBack(n.byteOffset / 0x1_0000_0000);
    FieldsBack(n.maxScore);
    FieldsBack(n.docCount);
    var s := NodeBytes(n);
    assert s[0..4] == Le32(n.maxDocId);
    assert s[8..16] == Le64(n.byteOffset);
    assert s[8..12] == Le32(n.byteOffset % 0x1_0000_0000);
    assert s[12..16] == Le32(n.byteOffset / 0x1_0000_0000);
    assert s[16..20] == Le32(n.maxScore);
    assert s[20..24] == Le32(n.docCount);
  }

  function NodesBytes(ns: seq<SkipNode>): (s: seq<byte>)
    requires forall n :: n in ns ==> InFields(n)
    ensures |s| == NODE_SIZE * |ns|
  {
    if ns == [] then [] else NodeBytes(ns[0]) + NodesBytes(ns[1..])
  }

  method ReadNodes(data: seq<byte>, at: nat, count: nat) returns (ns: seq<SkipNode>)
    requires at + NODE_SIZE * count <= |data|
    ensures |ns| == count && forall i :: 0 <= i < count ==> ns[i] == NodeAt(data, at + NODE_SIZE * i)
  {
    ns := [];
    for i := 0 to count
      invariant |ns| == i && forall j :: 0 <= j < i ==> ns[j] == NodeAt(data, at + NODE_SIZE * j)
    {
      ns := ns + [NodeAt(data, at + NODE_SIZE * i)];
    }
  }

  function SerializedSize(data: seq<byte>): nat
    requires |data| >= 8
  {
    8 + NODE_SIZE * (Get32(data, 0) + Get32(data, 4))
  }

  method Deserialize(data: seq<byte>) returns (r: Result<SkipList>)
    requires |data| >= 8 ==> SerializedSize(data) <= |data|
    ensures |data| < 8 ==> r.Error?
    ensures forall sl: SkipList :: sl.Writable() && sl.Bytes() == data ==> r == Ok(sl)
  {
    if |data| < 8 {
      return Error("SkipList data too short");
    }
    hide NodeAt, Get32, SkipList.Writable, SkipList.Bytes;
    var l0Count, l1Count := Get32(data, 0), Get32(data, 4);
    var l0 := ReadNodes(data, 8, l0Count);
    var l1 := ReadNodes(data, 8 + NODE_SIZE * l0Count, l1Count);
    AllBytesBack(data, l0, l1);
    return Ok(SkipList(l0, l1));
  }

  lemma {:induction false} NodesBack(ns: seq<SkipNode>, pre: seq<byte>, post: seq<byte>, i: nat)
    requires (forall n :: n in ns ==> InFields(n)) && i < |ns|
    ensures NodeAt(pre + NodesBytes(ns) + post, |pre| + NODE_SIZE * i) == ns[i]
    decreases i
  {
    hide NodeAt, NodeBytes, InFields, Le32, Get32;
    var rest := NodesBytes(ns[1..]);
    if i == 0 {
      NodeBack(ns[0]);
      assert pre + NodesBytes(ns) + post == pre + NodeBytes(ns[0]) + (rest + post);
      NodeInside(pre, NodeBytes(ns[0]), rest + post);
    } else {
      NodesBack(ns[1..], pre + NodeBytes(ns[0]), post, i - 1);
      assert pre + NodesBytes(ns) + post == (pre + NodeBytes(ns[0])) + rest + post;
    }
  }

  lemma NodeInside(pre: seq<byte>, mid: seq<byte>, post: seq<byte>)
    requires |mid| == NODE_SIZE
    ensures NodeAt(pre + mid + post, |pre|) == NodeAt(mid, 0)
  {
  }

  lemma BytesBack(sl: SkipList, l0: seq<SkipNode>, l1: seq<SkipNode>)
    requires sl.Writable()
    requires var data := sl.Bytes();
             && |l0| == Get32(data, 0) && |l1| == Get32(data, 4)
             && 8 + NODE_SIZE * (|l0| + |l1|) <= |data|
             && (forall i :: 0 <= i < |l0| ==> l0[i] == NodeAt(data, 8 + NODE_SIZE * i))
             && (forall i :: 0 <= i < |l1| ==> l1[i] == NodeAt(data, 8 + NODE_SIZE * |l0| + NODE_SIZE * i))
    ensures sl == SkipList(l0, l1)
  {
    hide NodeAt, NodeBytes, NodesBytes, InFields;
    var data := sl.Bytes();
    var head := Le32(|sl.level0|) + Le32(|sl.level1|);
    var n0, n1 := NodesBytes(sl.level0), NodesBytes(sl.level1);
    CountsBack(|sl.level0|, |sl.level1|, n0 + n1);
    assert data == head + (n0 + n1);
    hide Le32, Get32;
    forall i | 0 <= i < |l0|
      ensures l0[i] == sl.level0[i]
    {
      assert data == head + n0 + n1;
      NodesBack(sl.level0, head, n1, i);
    }
    forall i | 0 <= i < |l1|
      ensures l1[i] == sl.level1[i]
    {
      assert data == (head + n0) + n1 + [];
      NodesBack(sl.level1, head + n0, [], i);
    }
  }

  lemma AllBytesBack(data: seq<byte>, l0: seq<SkipNode>, l1: seq<SkipNode>)
    requires |data| >= 8 && |l0| == Get32(data, 0) && |l1| == Get32(data, 4)
    requires 8 + NODE_SIZE * (|l0| + |l1|) <= |data|
    requires forall i :: 0 <= i < |l0| ==> l0[i] == NodeAt(data, 8 + NODE_SIZE * i)
    requires forall i :: 0 <= i < |l1| ==> l1[i] == NodeAt(data, 8 + NODE_SIZE * |l0| + NODE_SIZE * i)
    ensures forall sl: SkipList :: sl.Writable() && sl.Bytes() == data ==> sl == SkipList(l0, l1)
  {
    hide NodeAt, Get32, SkipList.Writable, SkipList.Bytes;
    forall sl: SkipList | sl.Writable() && sl.Bytes() == data
      ensures sl == SkipList(l0, l1)
    {
      BytesBack(sl, l0, l1);
    }
  }

  lemma CountsBack(c0: nat, c1: nat, post: seq<byte>)
    requires c0 <= MAX_U32 && c1 <= MAX_U32
    ensures Get32(Le32(c0) + Le32(c1) + post, 0) == c0
    ensures Get32(Le32(c0) + Le32(c1) + post, 4) == c1
  {
    FieldsBack(c0);
    FieldsBack(c1);
  }
}

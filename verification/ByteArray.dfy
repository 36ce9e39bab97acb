/** The chunked buffer: a linked list of equal nodes with a cached cursor node. */
module ByteArrays {
  import opened Basics
  import opened Blocks
  import opened Wire

  /** How a call ends: normally, by the range exception, or by touching a null cursor. */
  datatype Outcome = Ok | OutOfRange | NullCursor

  /** A scatter/gather window into one node. */
  datatype IoVec = IoVec(base: array<byte>, off: nat, len: nat)

  class Node {
    const ptr: array<byte>
    const size: nat
    var next: Node?

    constructor (s: nat)
      ensures fresh(ptr) && ptr.Length == size == s && next == null
    {
      ptr := new byte[s];
      size := s;
      next := null;
    }
  }

  ghost function NodeOrEnd(ns: seq<Node>, i: nat): Node? {
    if i < |ns| then ns[i] else null
  }

  /** memcpy. */
  method CopyTo(buf: array<byte>, off: nat, w: seq<byte>)
    requires off + |w| <= buf.Length
    modifies buf
    ensures buf[..] == Overwrite(old(buf[..]), off, w)
  {
    forall k | 0 <= k < |w| {
      buf[off + k] := w[k];
    }
  }

  class ByteArray {
    const baseSize: nat
    var position: nat
    var capacity: nat
    var size: nat
    var endian: Endian
    var root: Node
    var cur: Node?
    ghost var nodes: seq<Node>
    ghost var starts: seq<nat>               // the flat address of each node, and the capacity
    ghost var bytes: seq<byte>               // the flat view: every byte of the capacity, in order
    ghost var slots: map<array<byte>, nat>   // which node a buffer belongs to: all are distinct
    ghost var at: nat                        // the index of the cursor node
    ghost var Repr: set<object>

    /** Node `i`: a buffer of `baseSize` bytes of its own, holding its slice of the flat view. */
    ghost predicate NodeOk(i: nat)
      requires i < |nodes| && |starts| == |nodes| + 1
      reads `nodes, `starts, `bytes, `slots, nodes[i], nodes[i].ptr
    {
      && nodes[i].ptr.Length == nodes[i].size == baseSize
      && nodes[i].next == NodeOrEnd(nodes, i + 1)
      && starts[i + 1] == starts[i] + baseSize <= |bytes|
      && bytes[starts[i]..starts[i + 1]] == nodes[i].ptr[..]
      && nodes[i].ptr in slots && slots[nodes[i].ptr] == i
    }

    /** The list: nodes in order from the root, summing to the capacity. */
    ghost predicate Linked()
      reads `root, `capacity, `nodes, `starts, `bytes, `slots, nodes, set n | n in nodes :: n.ptr
    {
      && baseSize >= 1
      && |nodes| >= 1 && nodes[0] == root
      && |starts| == |nodes| + 1 && starts[0] == 0
      && capacity == starts[|nodes|] == |bytes|
      && (forall i {:trigger NodeOk(i)} | 0 <= i < |nodes| :: NodeOk(i))
    }

    /** `node` is number `i` and holds address `p`; at the capacity it is the null behind the last. */
    ghost predicate Points(node: Node?, i: nat, p: nat)
      requires Linked()
      reads `root, `capacity, `nodes, `starts, `bytes, `slots, nodes, set n | n in nodes :: n.ptr
    {
      && i <= |nodes|
      && node == NodeOrEnd(nodes, i)
      && starts[i] <= p
      && (if i < |nodes| then p < starts[i + 1] else p == capacity)
    }

    ghost predicate Valid()
      reads this, nodes, set n | n in nodes :: n.ptr
    {
      && Linked()
      && this in Repr
      && (forall n | n in nodes :: n in Repr && n.ptr in Repr)
      && position <= size <= capacity
      && Points(cur, at, position)
    }

    /** The bytes between the position and the size. */
    ghost function Unread(): seq<byte>
      requires Valid()
      reads this, nodes, set n | n in nodes :: n.ptr
    {
      bytes[position..size]
    }

    constructor (baseSize: nat)
      requires baseSize >= 1
      ensures Valid() && fresh(Repr)
      ensures this.baseSize == capacity == baseSize && position == size == 0 && endian == Big
    {
      this.baseSize := baseSize;
      position := 0;
      capacity := baseSize;
      endian := Big;
      size := 0;
      var node := new Node(baseSize);
      root := node;
      cur := node;
      nodes := [node];
      starts := [0, baseSize];
      bytes := node.ptr[..];
      slots := map[node.ptr := 0];
      at := 0;
      Repr := {this, node, node.ptr};
      new;
      assert NodeOk(0);
    }

    /** Node `i` starts at address `i * baseSize`. */
    lemma {:induction false} StartsAt(i: nat)
      requires Linked() && i <= |nodes|
      ensures starts[i] == i * baseSize
    {
      if i > 0 {
        StartsAt(i - 1);
        assert NodeOk(i - 1);
      }
    }

    lemma {:induction false} StartsOrdered(i: nat, j: nat)
      requires Linked() && i < j <= |nodes|
      ensures starts[i] + baseSize <= starts[j]
      decreases j
    {
      assert NodeOk(j - 1);
      if i < j - 1 {
        StartsOrdered(i, j - 1);
      }
    }

    /** The nodes all have `baseSize` bytes and sum to the capacity; the cursor is node
        `position / baseSize`, or null exactly when the position is the capacity. */
    lemma Shape()
      requires Valid()
      ensures capacity == |nodes| * baseSize && forall n | n in nodes :: n.size == baseSize
      ensures cur == null <==> position == capacity
      ensures position < capacity ==> position / baseSize < |nodes| && cur == nodes[position / baseSize]
    {
      StartsAt(|nodes|);
      forall n | n in nodes ensures n.size == baseSize {
        var i :| 0 <= i < |nodes| && nodes[i] == n;
        assert NodeOk(i);
      }
      if at < |nodes| {
        assert NodeOk(at);
        StartsOrdered(at, |nodes|);
        StartsAt(at);
        DivMod(position, at, baseSize);
      }
    }

    /** The node below address `p`: where its next `k` bytes lie in the flat view, and what follows. */
    lemma Step(node: Node, i: nat, p: nat, k: nat)
      requires Linked() && Points(node, i, p) && i < |nodes| && p + k <= starts[i] + baseSize
      ensures node in nodes && node.ptr.Length == node.size == baseSize && p + k <= capacity
      ensures starts[i + 1] == starts[i] + baseSize
      ensures node.ptr[p - starts[i]..p - starts[i] + k] == bytes[p..p + k]
      ensures p + k < starts[i + 1] ==> Points(node, i, p + k)
      ensures p + k == starts[i + 1] ==> Points(node.next, i + 1, p + k)
    {
      assert NodeOk(i);
      StartsOrdered(i, |nodes|);
      SliceSlice(bytes, starts[i], starts[i + 1], p - starts[i], p - starts[i] + k);
      if i + 1 < |nodes| {
        assert NodeOk(i + 1);
      }
    }

    /** Nodes `i` and `j` do not overlap. */
    ghost predicate Apart(st: seq<nat>, i: nat, j: nat) {
      && i + 1 < |st| && j + 1 < |st| && st[j] <= st[j + 1] <= st[|st| - 1]
      && (st[j + 1] <= st[i] || st[i + 1] <= st[j])
    }

    lemma NodesApart(i: nat, j: nat)
      requires Linked() && i < |nodes| && j < |nodes| && j != i
      ensures Apart(starts, i, j)
    {
      assert NodeOk(i) && NodeOk(j);
      StartsOrdered(j, |nodes|);
      if j < i {
        StartsOrdered(j, i);
      } else {
        StartsOrdered(i, j);
      }
    }

    /** Copies into the buffer of node `i`, at address `p`. */
    method Store(buf: array<byte>, ghost i: nat, ghost p: nat, off: nat, w: seq<byte>)
      requires Linked() && i < |nodes| && buf == nodes[i].ptr
      requires p == starts[i] + off && off + |w| <= baseSize
      modifies buf, `bytes
      ensures Linked() && p + |w| <= capacity
      ensures bytes == Overwrite(old(bytes), p, w)
    {
      StartsOrdered(i, |nodes|);
      assert NodeOk(i);
      OverwriteWithin(bytes, p, w, starts[i], starts[i + 1]);
      forall j | 0 <= j < |nodes| && j != i ensures Apart(starts, i, j) {
        NodesApart(i, j);
      }
      CopyTo(buf, off, w);
      bytes := Overwrite(bytes, p, w);
      forall j | 0 <= j < |nodes| ensures NodeOk(j) {
        assert old(NodeOk(j));
        if j != i {
          assert Apart(starts, i, j);
          OverwriteElsewhere(old(bytes), p, w, starts[j], starts[j + 1]);
        }
      }
    }

    /** One memcpy of a write: `k` more bytes of `w`; returns the address reached. */
    method StoreStep(node: Node, ghost i: nat, ghost p: nat, off: nat, w: seq<byte>, bpos: nat, k: nat,
                     ghost from: nat, ghost full: seq<byte>)
      requires Linked() && Points(node, i, p) && i < |nodes| && p == from + bpos
      requires off == p - starts[i] && off + k <= baseSize && bpos + k <= |w| && from + |w| <= |full|
      requires bytes == Overwrite(full, from, w[..bpos])
      modifies node.ptr, `bytes
      ensures Linked() && bytes == Overwrite(full, from, w[..bpos + k])
      ensures node.size == baseSize && starts[i + 1] == starts[i] + baseSize && p + k <= capacity
      ensures if off + k < baseSize then Points(node, i, p + k) else Points(node.next, i + 1, p + k)
    {
      Step(node, i, p, k);
      OverwriteExtend(full, from, w, bpos, k);
      Store(node.ptr, i, p, off, w[bpos..bpos + k]);
      Step(node, i, p, k);
    }

    /** Appending the next `k` bytes of node `i` to what was read from `from` on. */
    lemma ReadStep(node: Node, i: nat, p: nat, k: nat, from: nat, r: seq<byte>)
      requires Linked() && Points(node, i, p) && i < |nodes| && p + k <= starts[i] + baseSize
      requires from <= p <= capacity && r == bytes[from..p]
      ensures node.ptr.Length == node.size == baseSize && p + k <= capacity
      ensures starts[i + 1] == starts[i] + baseSize
      ensures r + node.ptr[p - starts[i]..p - starts[i] + k] == bytes[from..p + k]
      ensures if p + k < starts[i + 1] then Points(node, i, p + k) else Points(node.next, i + 1, p + k)
    {
      Step(node, i, p, k);
      SliceExtend(r, bytes[p..p + k], bytes, from, p, p + k);
    }

    lemma NodeSize(i: nat)
      requires Linked() && i < |nodes|
      ensures nodes[i].size == baseSize && starts[i + 1] == starts[i] + baseSize
    {
      assert NodeOk(i);
    }

    /** A cursor is null exactly at the capacity. */
    lemma NullAtEnd(node: Node?, i: nat, p: nat)
      requires Linked() && Points(node, i, p)
      ensures node == null <==> p == capacity
      ensures p <= capacity
    {
      if i < |nodes| {
        NodeSize(i);
        StartsOrdered(i, |nodes|);
      }
    }

    /** Growth from one capacity to another: none when `need` bytes fit, else the fewest nodes. */
    ghost predicate Grown(before: nat, after: nat, need: nat) {
      if need <= before then after == before else need <= after < need + baseSize
    }

    lemma GrownTwice(a: nat, b: nat, c: nat, p: nat, q: nat)
      requires Grown(a, b, p) && Grown(b, c, q) && p <= q
      ensures Grown(a, c, q)
    {
    }

    method AppendNode(last: Node) returns (node: Node)
      requires Linked() && last == nodes[|nodes| - 1]
      requires forall n | n in nodes :: allocated(n.ptr)
      modifies last, `capacity, `nodes, `starts, `bytes, `slots
      ensures Linked() && fresh(node) && fresh(node.ptr)
      ensures nodes == old(nodes) + [node] && capacity == old(capacity) + baseSize
      ensures starts[..|old(starts)|] == old(starts) && bytes[..old(capacity)] == old(bytes)
    {
      NodeSize(|nodes| - 1);
      node := new Node(baseSize);
      last.next := node;
      capacity := capacity + baseSize;
      nodes := nodes + [node];
      starts := starts + [capacity];
      bytes := bytes + node.ptr[..];
      slots := slots[node.ptr := |nodes| - 1];
      forall j | 0 <= j < |nodes| ensures NodeOk(j) {
        if j < |old(nodes)| {
          assert old(NodeOk(j)) && old(NodeOk(|nodes| - 1));
        }
      }
    }

    /** Appends `count` nodes behind the last one; returns the first of them. */
    method AppendNodes(last: Node, count: nat) returns (first: Node?, ghost added: set<object>)
      requires Linked() && last == nodes[|nodes| - 1]
      modifies last, `capacity, `nodes, `starts, `bytes, `slots
      ensures Linked() && fresh(added)
      ensures forall n | n in nodes :: n in old(nodes) || (n in added && n.ptr in added)
      ensures old(nodes) <= nodes && |nodes| == |old(nodes)| + count && capacity == old(capacity) + count * baseSize
      ensures old(starts) <= starts && bytes[..old(capacity)] == old(bytes)
      ensures first == NodeOrEnd(nodes, |old(nodes)|)
    {
      first, added := null, {};
      var tmp := last;
      for i := 0 to count
        invariant Linked() && fresh(added)
        invariant tmp == nodes[|nodes| - 1] && (i == 0 ==> tmp == last) && (i > 0 ==> fresh(tmp))
        invariant forall n | n in nodes :: n in old(nodes) || (n in added && n.ptr in added)
        invariant old(nodes) <= nodes && |nodes| == |old(nodes)| + i && capacity == old(capacity) + i * baseSize
        invariant old(starts) <= starts && bytes[..old(capacity)] == old(bytes)
        invariant first == NodeOrEnd(nodes, |old(nodes)|)
      {
        label step:
        tmp := AppendNode(tmp);
        assert bytes[..old(capacity)] == bytes[..old@step(capacity)][..old(capacity)];
        added := added + {tmp, tmp.ptr};
        if first == null {
          first := tmp;
        }
      }
    }

    method LastNode() returns (tmp: Node)
      requires Linked()
      ensures tmp == nodes[|nodes| - 1]
    {
      tmp := root;
      ghost var k := 0;
      assert NodeOk(0);
      while tmp.next != null
        invariant k < |nodes| && tmp == nodes[k] && NodeOk(k)
        decreases |nodes| - k
      {
        tmp := tmp.next;
        k := k + 1;
        assert NodeOk(k);
      }
    }

    /** A cursor stays right while nodes are added behind it; one behind the last node finds the first of them. */
    lemma CursorKept(ns: seq<Node>, st: seq<nat>, i: nat, p: nat)
      requires Linked() && ns < nodes && |st| == |ns| + 1 && st <= starts && i <= |ns|
      requires st[i] <= p && if i < |ns| then p < st[i + 1] else p == st[i]
      ensures Points(NodeOrEnd(nodes, i), i, p) && i < |nodes|
    {
      NodeSize(i);
    }

    /** Owns the added nodes, and has this cursor. */
    method Adopt(node: Node?, ghost added: set<object>)
      requires Linked() && this in Repr && position <= size <= capacity && Points(node, at, position)
      requires forall n | n in nodes :: n in Repr + added && n.ptr in Repr + added
      modifies `Repr, `cur
      ensures Valid() && Repr == old(Repr) + added
    {
      Repr := Repr + added;
      cur := node;
    }

    /** The growing half of addCapacity: nodes at the end, and a cursor again where it was null. */
    method AddNodes(count: nat)
      requires Valid() && count > 0
      modifies Repr
      ensures Valid() && fresh(Repr - old(Repr))
      ensures position == old(position) && size == old(size) && endian == old(endian)
      ensures capacity == old(capacity) + count * baseSize && bytes[..old(capacity)] == old(bytes)
    {
      NullAtEnd(cur, at, position);
      ghost var ns, st := nodes, starts;
      var full := capacity == position;   // old_cap == 0
      var tmp := LastNode();
      var first, added := AppendNodes(tmp, count);
      CursorKept(ns, st, at, position);
      Adopt(if full then first else cur, added);
    }

    method AddCapacity(n: nat)
      requires Valid()
      modifies Repr
      ensures Valid() && fresh(Repr - old(Repr))
      ensures position == old(position) && size == old(size) && endian == old(endian)
      ensures Grown(old(capacity), capacity, position + n)
      ensures bytes[..old(capacity)] == old(bytes)
    {
      if n == 0 {
        return;
      }
      var oldCap := capacity - position;
      if oldCap >= n {
        return;
      }
      var count := BlocksFor(n - oldCap, baseSize);
      AddNodes(count);
    }

    /** The copy loop of a write, with `bpos` bytes of `w` written from `from` on: the node, its index, the offset
        in it and its free bytes. */
    ghost predicate Copying(full: seq<byte>, from: nat, w: seq<byte>, bpos: nat,
                            node: Node?, i: nat, npos: nat, ncap: nat)
      requires from + |w| <= |full| && bpos <= |w|
      reads `root, `capacity, `nodes, `starts, `bytes, `slots, nodes, set n | n in nodes :: n.ptr
    {
      && Linked() && bytes == Overwrite(full, from, w[..bpos]) && Points(node, i, from + bpos)
      && (bpos < |w| ==> npos == from + bpos - starts[i] && ncap == baseSize - npos)
    }

    /** One turn of it. */
    method CopyTurn(node: Node, ghost i: nat, npos: nat, ncap: nat, w: seq<byte>, bpos: nat,
                    ghost full: seq<byte>, ghost from: nat)
      returns (node': Node?, ghost i': nat, npos': nat, ncap': nat, bpos': nat)
      requires from + |w| <= |full| && bpos < |w| && Copying(full, from, w, bpos, node, i, npos, ncap)
      requires from + |w| <= capacity && i < |nodes|
      modifies node.ptr, `bytes
      ensures bpos < bpos' <= |w| && Copying(full, from, w, bpos', node', i', npos', ncap')
      ensures bpos' < |w| ==> i' < |nodes|
    {
      var n := |w| - bpos;
      node', i', npos', ncap' := node, i, npos, ncap;
      NodeSize(i);
      if ncap >= n {
        StoreStep(node, i, from + bpos, npos, w, bpos, n, from, full);
        if node.size == npos + n {
          node' := node.next;
          i' := i + 1;
        }
        bpos' := |w|;
      } else {
        StoreStep(node, i, from + bpos, npos, w, bpos, ncap, from, full);
        bpos' := bpos + ncap;
        node' := node.next;
        i' := i + 1;
        NodeSize(i');
        ncap' := node'.size;
        npos' := 0;
      }
    }

    /** The copy loop of a write whose bytes fit; returns the cursor behind them. */
    method CopyIn(w: seq<byte>) returns (node: Node?, ghost i: nat)
      requires Valid() && |w| > 0 && position + |w| <= capacity
      modifies `bytes, set n | n in nodes :: n.ptr
      ensures Linked() && Points(node, i, position + |w|)
      ensures bytes == Overwrite(old(bytes), position, w)
    {
      ghost var full := bytes;
      node, i := cur, at;
      StartsAt(i);
      NodeSize(i);
      var npos := Offset(position, baseSize, i, starts[i]);
      var ncap: nat, bpos: nat := node.size - npos, 0;
      while bpos < |w|   // while(size > 0)
        invariant bpos <= |w| && (bpos < |w| ==> i < |nodes|)
        invariant Copying(full, position, w, bpos, node, i, npos, ncap)
      {
        node, i, npos, ncap, bpos := CopyTurn(node, i, npos, ncap, w, bpos, full, position);
      }
      assert w[..bpos] == w;
    }

    /** Sets the position and its cursor; the size follows when the position passes it. */
    method MoveTo(p: nat, next: Node?, ghost i: nat)
      requires Linked() && this in Repr && (forall n | n in nodes :: n in Repr && n.ptr in Repr)
      requires Points(next, i, p) && size <= capacity
      modifies `position, `size, `cur, `at
      ensures Valid() && position == p && size == if old(size) < p then p else old(size)
    {
      NullAtEnd(next, i, p);
      position := p;
      cur := next;
      at := i;
      if position > size {
        size := position;
      }
    }

    /** The whole effect of writing `w`: one slice overwritten at the position, the list grown to fit. */
    twostate predicate Wrote(w: seq<byte>)
      requires old(position) <= |old(bytes)|
      reads this
    {
      && position == old(position) + |w| && endian == old(endian)
      && size == (if old(size) < position then position else old(size))
      && Grown(old(capacity), capacity, position)
      && Written(old(bytes), bytes, old(position), w)
    }

    method Write(w: seq<byte>)
      requires Valid()
      modifies Repr
      ensures Valid() && fresh(Repr - old(Repr))
      ensures Wrote(w)
    {
      if |w| == 0 {
        return;
      }
      AddCapacity(|w|);
      OverwriteIsWritten(old(bytes), bytes, position, w);
      var next;
      ghost var i;
      next, i := CopyIn(w);
      MoveTo(position + |w|, next, i);
    }

    /** Sets the position within the size, and its cursor. */
    method MoveOn(p: nat, next: Node?, ghost i: nat)
      requires Valid() && p <= size && Points(next, i, p)
      modifies `position, `cur, `at
      ensures Valid() && position == p
    {
      position := p;
      cur := next;
      at := i;
    }

    /** The copy loop of the reads, from a node and an offset in it; it faults where the list ends. */
    method CopyOut(first: Node, off: nat, n: nat, ghost index: nat, ghost from: nat)
      returns (r: seq<byte>, next: Node?, fault: bool, ghost i: nat)
      requires Linked() && Points(first, index, from) && index < |nodes| && off == from - starts[index]
      ensures fault <==> from + n > capacity
      ensures !fault ==> r == bytes[from..from + n] && Points(next, i, from + n)
    {
      r, next, i := [], first, index;
      ghost var p: nat := from;
      NodeSize(i);
      NullAtEnd(first, i, from);
      var npos: nat, ncap: nat, left: nat := off, first.size - off, n;
      while left > 0
        invariant from <= p < capacity && p + left == from + n
        invariant r == bytes[from..p]
        invariant Points(next, i, p) && npos == p - starts[i] && ncap == baseSize - npos
      {
        if ncap >= left {
          ReadStep(next, i, p, left, from, r);
          r := r + next.ptr[npos..npos + left];
          if next.size == npos + left {
            next := next.next;
            i := i + 1;
          }
          return r, next, false, i;
        } else {
          ReadStep(next, i, p, ncap, from, r);
          r := r + next.ptr[npos..npos + ncap];
          p := p + ncap;
          left := left - ncap;
          next := next.next;
          i := i + 1;
          NullAtEnd(next, i, p);
          if next == null {
            return r, next, true, i;
          }
          NodeSize(i);
          ncap := next.size;
          npos := 0;
        }
      }
      fault := false;
    }

    method Read(n: nat) returns (r: seq<byte>, o: Outcome)
      requires Valid()
      modifies `position, `cur, `at
      ensures Valid()
      ensures o == OutOfRange <==> n > size - old(position)
      ensures o == NullCursor <==> n == 0 && old(position) == capacity
      ensures o == Ok ==> position == old(position) + n && r == bytes[old(position)..position]
      ensures o != Ok ==> position == old(position) && r == []
    {
      if n > size - position {
        return [], OutOfRange;
      }
      NullAtEnd(cur, at, position);
      if cur == null {
        return [], NullCursor;
      }
      StartsAt(at);
      NodeSize(at);
      var npos := Offset(position, baseSize, at, starts[at]);
      var next, fault;
      ghost var i;
      r, next, fault, i := CopyOut(cur, npos, n, at, position);
      MoveOn(position + n, next, i);
      o := Ok;
    }

    /** The address the positioned read really starts from: the given remainder, in the cursor's node. */
    ghost function ReadStart(p: nat): nat
      requires Valid()
      reads this, nodes, set n | n in nodes :: n.ptr
    {
      starts[at] + p % baseSize
    }

    /** It is the asked position exactly for positions in the cursor's node. */
    lemma ReadStartRight(p: nat)
      requires Valid() && cur != null
      ensures ReadStart(p) == p <==> p / baseSize == position / baseSize
    {
      StartsAt(at);
      NodeSize(at);
      DivMod(position, at, baseSize);
      assert p == (p / baseSize) * baseSize + p % baseSize;
      if ReadStart(p) == p {
        DivMod(p, at, baseSize);
      }
    }

    /** The positioned read; the size check wraps when `p` is past the size, so it then passes. */
    method ReadAt(n: nat, p: nat) returns (r: seq<byte>, o: Outcome)
      requires Valid()
      ensures o == OutOfRange <==> p <= size && n > size - p
      ensures o != OutOfRange ==> (o == NullCursor <==> cur == null || ReadStart(p) + n > capacity)
      ensures o == Ok ==> r == bytes[ReadStart(p)..ReadStart(p) + n]
      ensures o != Ok ==> r == []
    {
      if p <= size && n > size - p {
        return [], OutOfRange;
      }
      if cur == null {
        return [], NullCursor;
      }
      var npos := p % baseSize;
      NodeSize(at);
      StartsOrdered(at, |nodes|);
      var next, fault;
      ghost var i;
      r, next, fault, i := CopyOut(cur, npos, n, at, starts[at] + npos);
      if fault {
        return [], NullCursor;
      }
      o := Ok;
    }

    method SetPosition(v: nat) returns (o: Outcome)
      requires Valid()
      modifies `position, `size, `cur, `at
      ensures Valid()
      ensures o == OutOfRange <==> v > capacity
      ensures o == OutOfRange || o == Ok
      ensures o == Ok ==> position == v && size == if old(size) < v then v else old(size)
      ensures o != Ok ==> position == old(position) && size == old(size)
    {
      if v > capacity {
        return OutOfRange;
      }
      var left: nat := v;
      var node: Node? := root;
      ghost var i := 0;
      NodeSize(0);
      while left > node.size
        invariant size == old(size) && i < |nodes| && node == nodes[i] && node.size == baseSize
        invariant starts[i] + left == v
        decreases left
      {
        assert NodeOk(i);
        left := left - node.size;
        node := node.next;
        i := i + 1;
        NodeSize(i);
      }
      assert NodeOk(i);
      if left == node.size {
        node := node.next;
        i := i + 1;
        NullAtStart(i);
      }
      MoveTo(v, node, i);
      o := Ok;
    }

    lemma NullAtStart(i: nat)
      requires Linked() && i <= |nodes|
      ensures Points(NodeOrEnd(nodes, i), i, starts[i])
    {
      if i < |nodes| {
        NodeSize(i);
      }
    }

    method Clear()
      requires Valid()
      modifies Repr
      ensures Valid() && Repr == old(Repr)
      ensures position == size == 0 && capacity == baseSize && endian == old(endian)
      ensures old(capacity) >= baseSize && bytes == old(bytes)[..baseSize]
    {
      NodeSize(0);
      StartsOrdered(0, |nodes|);
      position, size := 0, 0;
      capacity := baseSize;
      assert NodeOk(0);
      cur := root;
      root.next := null;
      nodes, starts, bytes, at := [root], [0, baseSize], bytes[..baseSize], 0;
      assert NodeOk(0);
    }

    method ToString() returns (str: seq<byte>)
      requires Valid()
      ensures str == Unread()
    {
      if size - position == 0 {
        return [];
      }
      NullAtEnd(cur, at, position);
      StartsAt(at);
      NodeSize(at);
      DivMod(position, at, baseSize);
      var o;
      str, o := ReadAt(size - position, position);
    }

    lemma NextWindow(i: nat, end: nat)
      requires Linked() && i < |nodes| && end <= capacity
      ensures starts[i + 1] == starts[i] + baseSize
      ensures end > starts[i + 1] ==> i + 1 < |nodes| && starts[i + 1] < starts[i + 2]
    {
      NodeSize(i);
      if i + 1 < |nodes| {
        NodeSize(i + 1);
      }
    }

    /** The windows lie in one node each, never two in the same. */
    lemma {:induction false} WindowsDisjoint(i: nat, p: nat, len: nat)
      requires Linked() && p + len <= capacity
      requires len > 0 ==> i < |nodes| && starts[i] <= p < starts[i + 1]
      ensures var ws := WindowsOf(nodes, starts, i, p, len);
              && (len > 0 ==> i + |ws| <= |nodes|)
              && (forall k | 0 <= k < |ws| :: ws[k].base == nodes[i + k].ptr && ws[k].len > 0)
              && (forall k | 0 <= k < |ws| :: ws[k].off + ws[k].len <= ws[k].base.Length)
              && (forall k, l | 0 <= k < l < |ws| :: ws[k].base != ws[l].base)
      decreases len
    {
      if len > 0 {
        var l := if len <= starts[i + 1] - p then len else starts[i + 1] - p;
        NextWindow(i, p + len);
        assert NodeOk(i);
        WindowsDisjoint(i + 1, p + l, len - l);
        var ws := WindowsOf(nodes, starts, i, p, len);
        assert |ws| == 1 + |WindowsOf(nodes, starts, i + 1, p + l, len - l)|;
        forall k | 0 < k < |ws| ensures ws[k].base != ws[0].base {
          assert NodeOk(i + k);
        }
      }
    }

    /** The three window loops: from a node and an offset, append windows until `len` bytes are covered. */
    method Collect(buffers: seq<IoVec>, node: Node, off: nat, len: nat, ghost i: nat, ghost p: nat)
      returns (all: seq<IoVec>, fault: bool)
      requires Linked() && Points(node, i, p) && i < |nodes| && off == p - starts[i]
      ensures fault <==> p + len > capacity
      ensures !fault ==> all == buffers + WindowsOf(nodes, starts, i, p, len)
    {
      all := buffers;
      NodeSize(i);
      NullAtEnd(node, i, p);
      var cur: Node?, npos: nat, left: nat, ncap: nat := node, off, len, node.size - off;
      ghost var k: nat, q: nat := i, p;
      while left > 0
        invariant q + left == p + len && q <= capacity
        invariant left > 0 ==> cur != null && Points(cur, k, q) && npos == q - starts[k] && ncap == starts[k + 1] - q
        invariant p + len <= capacity ==>
                    all + WindowsOf(nodes, starts, k, q, left) == buffers + WindowsOf(nodes, starts, i, p, len)
      {
        NextWindow(k, capacity);
        assert NodeOk(k);
        if ncap >= left {
          all := all + [IoVec(cur.ptr, npos, left)];
          q := q + left;
          left := 0;
        } else {
          all := all + [IoVec(cur.ptr, npos, ncap)];
          left := left - ncap;
          q := q + ncap;
          cur := cur.next;
          NullAtStart(k + 1);
          NullAtEnd(cur, k + 1, q);
          if cur == null {
            return all, true;
          }
          NodeSize(k + 1);
          ncap := cur.size;
          npos := 0;
        }
        k := k + 1;
      }
      fault := false;
    }

    method GetReadBuffers(buffers: seq<IoVec>, len: nat) returns (all: seq<IoVec>, n: nat)
      requires Valid()
      ensures n == if len > |Unread()| then |Unread()| else len
      ensures all == buffers + WindowsOf(nodes, starts, at, position, n)
    {
      n := if len > size - position then size - position else len;
      if n == 0 {
        return buffers, 0;
      }
      NullAtEnd(cur, at, position);
      StartsAt(at);
      NodeSize(at);
      var npos := Offset(position, baseSize, at, starts[at]);
      var fault;
      all, fault := Collect(buffers, cur, npos, n, at, position);
    }

    /** The walk to the node of a given position: null when the list is too short. */
    method Walk(p: nat) returns (cur: Node?, npos: nat, ghost i: nat)
      requires Linked()
      ensures i == p / baseSize && (cur == null <==> p >= capacity)
      ensures cur != null ==> i < |nodes| && Points(cur, i, p) && npos == p - starts[i]
    {
      AddressBlock(p);
      cur := root;
      var count: nat := p / baseSize;
      npos := p % baseSize;
      i := p / baseSize;
      ghost var k: nat := 0;
      while count > 0
        invariant k + count == i && k <= |nodes| && cur == NodeOrEnd(nodes, k)
      {
        if cur == null {
          return;
        }
        assert NodeOk(k);
        cur := cur.next;
        count := count - 1;
        k := k + 1;
      }
    }

    /** Windows from a given position. The length is clamped by the bytes unread from the current
        position, so for a later `p` the windows can pass the size, or run off the list. */
    method GetReadBuffersFrom(buffers: seq<IoVec>, len: nat, p: nat) returns (all: seq<IoVec>, n: nat, o: Outcome)
      requires Valid()
      ensures n == if len > |Unread()| then |Unread()| else len
      ensures o == Ok || o == NullCursor
      ensures o == NullCursor <==> n > 0 && p + n > capacity
      ensures o == Ok && n == 0 ==> all == buffers
      ensures o == Ok && n > 0 ==> all == buffers + WindowsOf(nodes, starts, p / baseSize, p, n)
    {
      all := buffers;
      n := if len > size - position then size - position else len;
      if n == 0 {
        return all, 0, Ok;
      }
      var cur, npos, i := Walk(p);
      if cur == null {
        return all, n, NullCursor;
      }
      var fault;
      all, fault := Collect(buffers, cur, npos, n, i, p);
      o := if fault then NullCursor else Ok;
    }

    /** Below the capacity, address `p` is in node `p / baseSize`; past it there is no such node. */
    lemma AddressBlock(p: nat)
      requires Linked()
      ensures p / baseSize < |nodes| <==> p < capacity
      ensures p < capacity ==> starts[p / baseSize] + p % baseSize == p < starts[p / baseSize + 1]
    {
      var i := p / baseSize;
      assert p == i * baseSize + p % baseSize;
      StartsAt(|nodes|);
      if i < |nodes| {
        StartsAt(i);
        NodeSize(i);
        StartsOrdered(i, |nodes|);
      } else if |nodes| < i {
        MulLess(|nodes|, i, baseSize);
      }
    }

    method GetWriteBuffers(buffers: seq<IoVec>, len: nat) returns (all: seq<IoVec>, n: nat)
      requires Valid()
      modifies Repr
      ensures Valid() && fresh(Repr - old(Repr))
      ensures position == old(position) && size == old(size) && endian == old(endian)
      ensures Grown(old(capacity), capacity, position + len) && bytes[..old(capacity)] == old(bytes)
      ensures n == len && all == buffers + WindowsOf(nodes, starts, at, position, len)
    {
      if len == 0 {
        return buffers, 0;
      }
      AddCapacity(len);
      n := len;
      NullAtEnd(cur, at, position);
      StartsAt(at);
      NodeSize(at);
      var npos := Offset(position, baseSize, at, starts[at]);
      var fault;
      all, fault := Collect(buffers, cur, npos, n, at, position);
    }

    /** The windows, read in order, are exactly the flat slice they cover. */
    lemma {:induction false} GatherWindows(i: nat, p: nat, len: nat)
      requires Linked() && p + len <= capacity
      requires len > 0 ==> i < |nodes| && starts[i] <= p < starts[i + 1]
      ensures var ws := WindowsOf(nodes, starts, i, p, len); InBounds(ws) && Gather(ws) == bytes[p..p + len]
      decreases len
    {
      if len > 0 {
        var l := if len <= starts[i + 1] - p then len else starts[i + 1] - p;
        NextWindow(i, p + len);
        GatherWindows(i + 1, p + l, len - l);
        Step(nodes[i], i, p, l);
        var ws := WindowsOf(nodes, starts, i, p, len);
        assert ws[1..] == WindowsOf(nodes, starts, i + 1, p + l, len - l);
        assert bytes[p..p + len] == bytes[p..p + l] + bytes[p + l..p + len];
      }
    }

    /** The windows of a transfer from the current position. */
    lemma GatherCursor(len: nat)
      requires Valid() && position + len <= capacity
      ensures var ws := WindowsOf(nodes, starts, at, position, len);
              InBounds(ws) && Gather(ws) == bytes[position..position + len]
    {
      NullAtEnd(cur, at, position);
      GatherWindows(at, position, len);
    }

    /** A recvmsg into the windows of the current position. */
    method Receive(ws: seq<IoVec>, w: seq<byte>, ghost len: nat)
      requires Valid() && position + len <= capacity && |w| <= len
      requires ws == WindowsOf(nodes, starts, at, position, len)
      modifies `bytes, set n | n in nodes :: n.ptr
      ensures Valid() && bytes == Overwrite(old(bytes), position, w)
    {
      NullAtEnd(cur, at, position);
      WindowsDisjoint(at, position, len);
      Scatter(ws, w, at, position, len);
    }

    /** recvmsg into the windows: `w` goes to their first `|w|` bytes, window after window. */
    method Scatter(ws: seq<IoVec>, w: seq<byte>, ghost i: nat, ghost p: nat, ghost len: nat)
      requires Linked() && p + len <= capacity && |w| <= len
      requires len > 0 ==> i < |nodes| && starts[i] <= p < starts[i + 1]
      requires ws == WindowsOf(nodes, starts, i, p, len)
      modifies `bytes, set v | v in ws :: v.base
      ensures Linked() && bytes == Overwrite(old(bytes), p, w)
      decreases |ws|
    {
      if |w| > 0 {
        NextWindow(i, p + len);
        assert NodeOk(i);
        var v := ws[0];
        var n := if |w| <= v.len then |w| else v.len;
        OverwriteExtend(bytes, p, w, 0, n);
        OverwriteExtend(bytes, p, w, n, |w| - n);
        assert w[..0] == [] && w[..|w|] == w && w[0..n] == w[..n] && w[n..|w|] == w[n..];
        ghost var full := bytes;
        Store(v.base, i, p, v.off, w[..n]);
        assert bytes == Overwrite(full, p, w[..n]);
        assert ws[1..] == WindowsOf(nodes, starts, i + 1, p + v.len, len - v.len);
        if n < |w| {
          Scatter(ws[1..], w[n..], i + 1, p + n, len - n);
        }
      }
    }
  }

  /** The windows over `[p, p + len)`, node by node from node `i`. */
  ghost function WindowsOf(ns: seq<Node>, starts: seq<nat>, i: nat, p: nat, len: nat): seq<IoVec>
    decreases len
  {
    if len == 0 || i >= |ns| || i + 1 >= |starts| || !(starts[i] <= p < starts[i + 1]) then
      []
    else
      var l := if len <= starts[i + 1] - p then len else starts[i + 1] - p;
      [IoVec(ns[i].ptr, p - starts[i], l)] + WindowsOf(ns, starts, i + 1, p + l, len - l)
  }

  ghost predicate InBounds(ws: seq<IoVec>) {
    forall v | v in ws :: v.off + v.len <= v.base.Length
  }

  /** The bytes under a list of windows, in order. */
  ghost function Gather(ws: seq<IoVec>): seq<byte>
    requires InBounds(ws)
    reads set v | v in ws :: v.base
  {
    if ws == [] then [] else ws[0].base[ws[0].off..ws[0].off + ws[0].len] + Gather(ws[1..])
  }

  /** Nodes of one byte, the bytes 1 and 2, the position at the second: the positioned read at 0 gives 2. */
  method ReadAtElsewhere() returns (ba: ByteArray, r: seq<byte>, o: Outcome)
    ensures ba.Valid() && ba.bytes == [1, 2] && ba.size == 2 && ba.position == 1
    ensures o == Ok && r == [2] != ba.bytes[0..1]
  {
    ba := new ByteArray(1);
    ba.Write([1, 2]);
    assert ba.bytes == [1, 2];
    o := ba.SetPosition(1);
    ba.StartsAt(ba.at);
    ba.NodeSize(ba.at);
    assert ba.ReadStart(0) == 1;
    r, o := ba.ReadAt(1, 0);
    assert r == ba.bytes[1..2] == [2] && ba.bytes[0..1] == [1];
  }
}

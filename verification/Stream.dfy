/** Moving a buffer's bytes through a connection that sends and receives as little as it likes. */
module Streams {
  import opened Basics
  import opened Blocks
  import opened ByteArrays

  /** What a call that could move as many as `room` bytes moves when the script says `n`. */
  function Clip(n: int, room: nat): (m: int)
    ensures m <= room && (m > 0 <==> n > 0 && room > 0)
  {
    if n > room then room else n
  }

  function Head(script: seq<int>): int {
    if script == [] then 0 else script[0]
  }

  function Tail(script: seq<int>): seq<int> {
    if script == [] then [] else script[1..]
  }

  /** At least the next `k` calls succeed. */
  predicate Supplied(script: seq<int>, k: nat) {
    k <= |script| && forall i | 0 <= i < k :: script[i] > 0
  }

  lemma SuppliedOn(script: seq<int>, k: nat, moved: nat)
    requires Supplied(script, k) && 0 < moved <= k
    ensures Head(script) > 0 && Supplied(Tail(script), k - moved)
  {
  }

  /** A connection: what was sent, what is still to be received, and how much each coming call moves
      (not positive: the call fails with that result). Any behaviour of short calls is some `script`. */
  class Socket {
    var connected: bool
    var sent: seq<byte>
    var coming: seq<byte>
    var script: seq<int>
    ghost var log: seq<int>   // what each receiving call returned

    constructor (coming: seq<byte>, script: seq<int>)
      ensures connected && this.coming == coming && this.script == script && sent == [] && log == []
    {
      connected, this.sent, this.coming, this.script, log := true, [], coming, script, [];
    }

    method Next() returns (n: int)
      modifies `script
      ensures n == Head(old(script)) && script == Tail(old(script))
    {
      n := Head(script);
      script := Tail(script);
    }

    /** sendmsg: sends some of the windows' bytes, in order. */
    method Send(ws: seq<IoVec>) returns (rt: int)
      requires InBounds(ws)
      modifies `script, `sent
      ensures rt == Clip(Head(old(script)), |Gather(ws)|) && script == Tail(old(script))
      ensures sent == old(sent) + if rt > 0 then Gather(ws)[..rt] else []
    {
      var n := Next();
      var all := Bytes(ws);
      rt := Clip(n, |all|);
      if rt > 0 {
        sent := sent + all[..rt];
      }
    }

    /** The bytes one recvmsg takes off the connection, at most `room`. */
    method Take(room: nat) returns (rt: int, data: seq<byte>)
      modifies `script, `coming, `log
      ensures rt == Clip(Clip(Head(old(script)), room), |old(coming)|) && script == Tail(old(script))
      ensures |data| == (if rt > 0 then rt else 0) && old(coming) == data + coming
      ensures log == old(log) + [rt]
    {
      var n := Next();
      rt := Clip(Clip(n, room), |coming|);
      data := if rt > 0 then coming[..rt] else [];
      coming := coming[|data|..];
      log := log + [rt];
    }

    /** SocketStream::read into plain memory: nothing is received once the connection is closed. */
    method Recv(room: nat) returns (rt: int, data: seq<byte>)
      modifies `script, `coming, `log
      ensures |data| == (if rt > 0 then rt else 0) <= room && old(coming) == data + coming
      ensures log == old(log) + [rt]
      ensures old(Steady()) && room > 0 ==> Steady() && (rt > 0 <==> old(coming) != [])
    {
      if !connected {
        log := log + [-1];
        return -1, [];
      }
      rt, data := Take(room);
      if 0 < rt && Supplied(old(script), |old(coming)|) {
        SuppliedOn(old(script), |old(coming)|, rt);
      }
    }

    /** Connected, and no call fails before all that is coming was received. */
    ghost predicate Steady()
      reads `connected, `script, `coming
    {
      connected && Supplied(script, |coming|)
    }
  }

  /** The bytes under the windows, read one window after the other. */
  method Bytes(ws: seq<IoVec>) returns (all: seq<byte>)
    requires InBounds(ws)
    ensures all == Gather(ws)
  {
    all := [];
    if ws != [] {
      var rest := Bytes(ws[1..]);
      all := ws[0].base[ws[0].off..ws[0].off + ws[0].len] + rest;
    }
  }

  function Min(a: nat, b: nat): nat {
    if a < b then a else b
  }

  /** One send of the windows ahead: a prefix of the unread bytes goes out. */
  method SendAhead(s: Socket, ba: ByteArray, length: nat) returns (rt: int)
    requires ba.Valid()
    modifies s`script, s`sent
    ensures rt == Clip(Head(old(s.script)), Min(length, ba.size - ba.position)) && s.script == Tail(old(s.script))
    ensures s.sent == old(s.sent) + if rt > 0 then ba.bytes[ba.position..ba.position + rt] else []
  {
    var ws, n := ba.GetReadBuffers([], length);
    assert ws == WindowsOf(ba.nodes, ba.starts, ba.at, ba.position, n);
    ba.GatherCursor(n);
    rt := s.Send(ws);
    if rt > 0 {
      SliceSlice(ba.bytes, ba.position, ba.position + n, 0, rt);
    }
  }

  /** SocketStream::write: sends from the position, at most `length` and at most the unread bytes. */
  method Write(s: Socket, ba: ByteArray, length: nat) returns (rt: int)
    requires ba.Valid() && s !in ba.Repr
    modifies s`script, s`sent, ba`position, ba`size, ba`cur, ba`at
    ensures ba.Valid() && ba.size == old(ba.size)
    ensures rt == if s.connected then Clip(Head(old(s.script)), Min(length, |old(ba.Unread())|)) else -1
    ensures s.script == if s.connected then Tail(old(s.script)) else old(s.script)
    ensures ba.position == old(ba.position) + if rt > 0 then rt else 0
    ensures s.sent == old(s.sent) + ba.bytes[old(ba.position)..ba.position]
  {
    if !s.connected {
      return -1;
    }
    rt := SendAhead(s, ba, length);
    if rt > 0 {
      var o := ba.SetPosition(ba.position + rt);
    }
  }

  /** SocketStream::read: the received bytes are written at the position; the list grew for `length`. */
  method Read(s: Socket, ba: ByteArray, length: nat) returns (rt: int)
    requires ba.Valid() && s !in ba.Repr
    modifies s`script, s`coming, s`log, ba.Repr
    ensures ba.Valid() && fresh(ba.Repr - old(ba.Repr)) && ba.endian == old(ba.endian)
    ensures rt == if s.connected then Clip(Clip(Head(old(s.script)), length), |old(s.coming)|) else -1
    ensures s.script == if s.connected then Tail(old(s.script)) else old(s.script)
    ensures ba.position == old(ba.position) + if rt > 0 then rt else 0
    ensures ba.size == if old(ba.size) < ba.position then ba.position else old(ba.size)
    ensures old(s.coming) == ba.bytes[old(ba.position)..ba.position] + s.coming
    ensures Written(old(ba.bytes), ba.bytes, old(ba.position), ba.bytes[old(ba.position)..ba.position])
    ensures s.connected ==> ba.Grown(old(ba.capacity), ba.capacity, old(ba.position) + length)
  {
    if !s.connected {
      s.log := s.log + [-1];
      return -1;
    }
    var ws, n := ba.GetWriteBuffers([], length);
    assert ws == WindowsOf(ba.nodes, ba.starts, ba.at, ba.position, length);
    var data;
    rt, data := s.Take(length);
    ghost var room := ba.bytes;
    Land(ba, ws, data, length);
    OverwriteIsWritten(old(ba.bytes), room, old(ba.position), data);
  }

  /** The received bytes go into the windows, and the position moves past them. */
  method Land(ba: ByteArray, ws: seq<IoVec>, data: seq<byte>, ghost length: nat)
    requires ba.Valid() && ba.position + length <= ba.capacity && |data| <= length
    requires ws == WindowsOf(ba.nodes, ba.starts, ba.at, ba.position, length)
    modifies ba`bytes, ba`position, ba`size, ba`cur, ba`at, set n | n in ba.nodes :: n.ptr
    ensures ba.Valid() && ba.position == old(ba.position) + |data|
    ensures ba.size == if old(ba.size) < ba.position then ba.position else old(ba.size)
    ensures ba.bytes == Overwrite(old(ba.bytes), old(ba.position), data)
  {
    ba.Receive(ws, data, length);
    if |data| > 0 {
      var o := ba.SetPosition(ba.position + |data|);
    }
  }

  /** Stream::writeFixSize. When no call fails before, it sends all exactly when there is as much to send. */
  method WriteFixSize(s: Socket, ba: ByteArray, length: nat) returns (rt: int)
    requires ba.Valid() && s !in ba.Repr
    modifies s`script, s`sent, ba`position, ba`size, ba`cur, ba`at
    ensures ba.Valid() && ba.size == old(ba.size) && old(ba.position) <= ba.position <= old(ba.position) + length
    ensures s.sent == old(s.sent) + ba.bytes[old(ba.position)..ba.position]
    ensures rt == length || rt <= 0
    ensures rt > 0 || length == 0 ==> ba.position == old(ba.position) + length
    ensures s.connected && Supplied(old(s.script), length) ==> (rt == length <==> length <= |old(ba.Unread())|)
  {
    ghost var from, sent := ba.position, s.sent;
    var left: nat := length;
    while left > 0
      invariant ba.Valid() && ba.size == old(ba.size) && from <= ba.position && ba.position + left == from + length
      invariant s.sent == sent + ba.bytes[from..ba.position]
      invariant s.connected && Supplied(old(s.script), length) ==> Supplied(s.script, left)
    {
      ghost var mid, script := ba.position, s.script;
      var len := Write(s, ba, left);
      SliceExtend(ba.bytes[from..mid], ba.bytes[mid..ba.position], ba.bytes, from, mid, ba.position);
      if len <= 0 {
        return len;
      }
      if Supplied(script, left) {
        SuppliedOn(script, left, len);
      }
      left := left - len;
    }
    rt := length;
  }

  /** Stream::readFixSize. When no call fails before, it receives all exactly when there is as much to come. */
  method ReadFixSize(s: Socket, ba: ByteArray, length: nat) returns (rt: int)
    requires ba.Valid() && s !in ba.Repr
    modifies s`script, s`coming, s`log, ba.Repr
    ensures ba.Valid() && fresh(ba.Repr - old(ba.Repr)) && ba.endian == old(ba.endian)
    ensures old(ba.position) <= ba.position <= old(ba.position) + length
    ensures ba.size == if old(ba.size) < ba.position then ba.position else old(ba.size)
    ensures old(s.coming) == ba.bytes[old(ba.position)..ba.position] + s.coming
    ensures Written(old(ba.bytes), ba.bytes, old(ba.position), ba.bytes[old(ba.position)..ba.position])
    ensures rt == length || rt <= 0
    ensures rt > 0 || length == 0 ==> ba.position == old(ba.position) + length
    ensures s.connected && Supplied(old(s.script), length) ==> (rt == length <==> length <= |old(s.coming)|)
  {
    ghost var from, coming := ba.position, s.coming;
    var left: nat := length;
    OverwriteIsWritten(ba.bytes, ba.bytes, from, []);
    while left > 0
      invariant ba.Valid() && fresh(ba.Repr - old(ba.Repr)) && ba.endian == old(ba.endian)
      invariant from <= ba.position && ba.position + left == from + length
      invariant ba.size == if old(ba.size) < ba.position then ba.position else old(ba.size)
      invariant SoFar(old(ba.bytes), ba.bytes, from, ba.position, coming, s.coming)
      invariant s.connected && Supplied(old(s.script), length) ==> Supplied(s.script, left)
    {
      var len := ReadOn(s, ba, left, old(ba.bytes), from, coming);
      if len <= 0 {
        return len;
      }
      left := left - len;
    }
    rt := length;
  }

  /** What was received since `from` is written there, and is no longer coming. */
  ghost predicate SoFar(before: seq<byte>, now: seq<byte>, from: nat, at: nat, coming: seq<byte>, left: seq<byte>) {
    && from <= |before| && from <= at <= |now|
    && coming == now[from..at] + left && Written(before, now, from, now[from..at])
  }

  /** One turn of the loop. */
  method ReadOn(s: Socket, ba: ByteArray, left: nat, ghost before: seq<byte>, ghost from: nat, ghost coming: seq<byte>)
    returns (len: int)
    requires ba.Valid() && s !in ba.Repr && SoFar(before, ba.bytes, from, ba.position, coming, s.coming)
    modifies s`script, s`coming, s`log, ba.Repr
    ensures ba.Valid() && fresh(ba.Repr - old(ba.Repr)) && ba.endian == old(ba.endian)
    ensures len <= left && ba.position == old(ba.position) + if len > 0 then len else 0
    ensures ba.size == if old(ba.size) < ba.position then ba.position else old(ba.size)
    ensures SoFar(before, ba.bytes, from, ba.position, coming, s.coming)
    ensures s.connected && Supplied(old(s.script), left) && left > 0 ==>
              if |old(s.coming)| == 0 then len <= 0 else len > 0 && Supplied(s.script, left - len)
  {
    ghost var bytes, mid, script := ba.bytes, ba.position, s.script;
    len := Read(s, ba, left);
    ReceivedTwice(before, bytes, ba.bytes, from, mid, ba.position);
    if len > 0 && Supplied(script, left) {
      SuppliedOn(script, left, len);
    }
  }

  /** Two adjacent pieces received one after the other. */
  lemma ReceivedTwice(before: seq<byte>, mid: seq<byte>, after: seq<byte>, from: nat, m: nat, e: nat)
    requires from <= |before| && from <= m <= e <= |after| && m <= |mid|
    requires Written(before, mid, from, mid[from..m]) && Written(mid, after, m, after[m..e])
    ensures after[from..e] == mid[from..m] + after[m..e]
    ensures Written(before, after, from, after[from..e])
  {
    WrittenTwice(before, mid, after, from, mid[from..m], after[m..e]);
  }

  /** Receives from the other end of a connection over which this was sent. */
  method Deliver(sent: seq<byte>, script: seq<int>, ba: ByteArray, n: nat) returns (received: int)
    requires ba.Valid()
    modifies ba.Repr
    ensures ba.Valid() && fresh(ba.Repr - old(ba.Repr))
    ensures Supplied(script, n) ==> (received == n <==> n <= |sent|)
    ensures received == n ==>
              && ba.position == old(ba.position) + n <= |ba.bytes| && n <= |sent|
              && ba.bytes[old(ba.position)..ba.position] == sent[..n]
  {
    var link := new Socket(sent, script);
    received := ReadFixSize(link, ba, n);
  }

  /** End to end: what one buffer sends over arbitrary short calls, another receives over arbitrary short
      calls, in order and complete, at its own position; and it does, when no call fails before. */
  method Transfer(out: Socket, ba: ByteArray, script: seq<int>, ba2: ByteArray, n: nat)
    returns (sent: int, received: int)
    requires ba.Valid() && ba2.Valid() && ba.Repr !! ba2.Repr && out !in ba.Repr + ba2.Repr && out.sent == []
    modifies out, ba.Repr, ba2.Repr
    ensures ba.Valid() && ba2.Valid()
    ensures old(out.connected) && Supplied(old(out.script), n) && Supplied(script, n) && n <= |old(ba.Unread())| ==>
              sent == n && received == n
    ensures sent == n && received == n ==>
              && ba2.position == old(ba2.position) + n <= |ba2.bytes|
              && old(ba.position) + n <= |old(ba.bytes)|
              && ba2.bytes[old(ba2.position)..ba2.position] == old(ba.bytes)[old(ba.position)..old(ba.position) + n]
  {
    sent := WriteFixSize(out, ba, n);
    assert sent == n ==> out.sent == out.sent[..n] == ba.bytes[old(ba.position)..ba.position];
    received := Deliver(out.sent, script, ba2, n);
  }
}

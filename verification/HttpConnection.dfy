/** Receiving a response body: chunk by chunk through one shifting buffer, or by its length. */
module HttpConnections {
  import opened Basics
  import opened Streams
  import opened ChunkSpec
  import opened ChunkFlow

  /** What became of a response: its body, a null pointer after close, or a way into what is not modelled. */
  datatype Reply = Body(bytes: seq<byte>) | Null | Unknown

  function ReplyOf(end: End): Reply {
    match end
    case Done(body) => Body(body)
    case Away => Unknown
    case _ => Null
  }

  /** strtol in base 16, from `mark` to the first byte that is no digit. */
  method StrToL(data: array<byte>, mark: nat, ghost end: nat) returns (v: nat)
    requires mark <= end < data.Length && (forall i | mark <= i < end :: IsHex(data[i])) && !IsHex(data[end])
    ensures v == Hex(data[mark..end])
  {
    v := 0;
    var i := mark;
    while IsHex(data[i])
      invariant mark <= i <= end && v == Hex(data[mark..i])
      decreases end - i
    {
      v := 16 * v + Digit(data[i]);
      assert data[mark..i + 1][..i - mark] == data[mark..i];
      i := i + 1;
    }
    assert i == end;
  }

  /** httpclient_parser_execute from its first state: states 1, 2, 3 and 120 (finished); 0 is the error. */
  method Scan(data: array<byte>, len: nat) returns (l: Line, nparse: nat)
    requires len < data.Length
    ensures l == Parse(data[..len])
    ensures nparse == if l.Size? then l.n else if l.Partial? then len else nparse
    ensures nparse <= len
  {
    ghost var s := data[..len];
    var p: nat, cs: nat, mark: nat, contentLen: nat := 0, 1, 0, 0;
    while p < len && cs != 0 && cs != 120
      invariant p <= len && mark == 0 && (cs == 0 || cs == 1 || cs == 2 || cs == 3 || cs == 120)
      invariant cs == 0 ==> Parse(s) == Bad
      invariant cs == 1 ==> p == 0
      invariant cs == 2 ==> 0 < p && forall i | 0 <= i < p :: IsHex(s[i])
      invariant cs == 3 ==> 1 < p && Digits(s) == p - 1 && s[p - 1] == CR && contentLen == Hex(s[..p - 1])
      invariant cs == 120 ==> Parse(s) == LineOf(contentLen, p)
      decreases len - p, cs != 0
    {
      var b := data[p];
      if cs == 1 {
        if b == 72 {
          assert Digits(s) == 0;
          return Elsewhere, p;
        } else if IsHex(b) {
          mark := p;
          cs := 2;
          p := p + 1;
        } else {
          assert Digits(s) == 0;
          cs := 0;
        }
      } else if cs == 2 {
        if IsHex(b) {
          p := p + 1;
        } else {
          DigitsAre(s, p);
          if b == LF || b == CR {
            contentLen := StrToL(data, mark, p);
            assert data[mark..p] == s[..p];
            p := p + 1;
            cs := if b == LF then 120 else 3;
          } else if b == SEMICOLON {
            return Elsewhere, p;
          } else {
            cs := 0;
          }
        }
      } else {
        if b == LF {
          p := p + 1;
          cs := 120;
        } else {
          cs := 0;
        }
      }
    }
    nparse := p;
    if cs == 120 {
      l := if contentLen <= MAX_SIZE then Size(contentLen, p) else Elsewhere;
    } else if cs == 0 {
      l := Bad;
    } else {
      l := Partial;
      if cs == 2 {
        DigitsAre(s, p);
      }
    }
  }

  /** memmove(data, data + from, n). */
  method MoveDown(data: array<byte>, from: nat, n: nat)
    requires from + n <= data.Length
    modifies data
    ensures data[..n] == old(data[from..from + n])
  {
    forall i | 0 <= i < n {
      data[i] := data[from + i];
    }
  }

  /** HttpResponseParser::execute with `chunck`: starts anew, and shifts what it did not take to the front. */
  method Execute(data: array<byte>, len: nat) returns (l: Line, nparse: nat)
    requires len < data.Length
    modifies data
    ensures l == Parse(old(data[..len])) && nparse <= len
    ensures l.Size? ==> nparse == l.n
    ensures l.Partial? ==> nparse == len
    ensures data[..len - nparse] == old(data[nparse..len])
  {
    l, nparse := Scan(data, len);
    MoveDown(data, nparse, len - nparse);
  }

  /** SocketStream::read into the buffer from `at` on. */
  method Receive(s: Socket, data: array<byte>, at: nat, room: nat) returns (rt: int, ghost got: seq<byte>)
    requires at + room <= data.Length
    modifies s`script, s`coming, s`log, data
    ensures |got| == (if rt > 0 then rt else 0) <= room && old(s.coming) == got + s.coming
    ensures s.log == old(s.log) + [rt]
    ensures data[..at] == old(data[..at]) && data[at..at + |got|] == got
    ensures rt <= 0 ==> s.coming == old(s.coming)
    ensures old(s.Steady()) && room > 0 ==> s.Steady() && (rt > 0 <==> old(s.coming) != [])
  {
    var bytes;
    rt, bytes := s.Recv(room);
    got := bytes;
    forall i | 0 <= i < |bytes| {
      data[at + i] := bytes[i];
    }
  }

  /** What is still to be taken: the buffer's bytes, then those on the connection. */
  ghost function Ahead(s: Socket, data: array<byte>, len: nat): seq<byte>
    requires len <= data.Length
    reads s`coming, data
  {
    data[..len] + s.coming
  }

  /** What is held and what is coming. */
  ghost function Now(s: Socket, data: array<byte>, len: nat): Flow
    requires len <= data.Length
    reads s`coming, data
  {
    Flow(data[..len], s.coming, [])
  }

  /** No read failed, or only the last did. */
  predicate Clean(rts: seq<int>, failed: bool) {
    if failed then rts != [] && rts[|rts| - 1] <= 0 && forall i | 0 <= i < |rts| - 1 :: rts[i] > 0
    else forall i | 0 <= i < |rts| :: rts[i] > 0
  }

  /** One more read is logged. */
  lemma Logged(log: seq<int>, rts: seq<int>, rt: int)
    requires Clean(rts, false)
    ensures log + rts + [rt] == log + (rts + [rt]) && Clean(rts + [rt], rt <= 0)
  {
  }

  /** Reads logged one run after the other. */
  lemma LoggedBoth(log: seq<int>, a: seq<int>, b: seq<int>, failed: bool)
    requires Clean(a, false) && Clean(b, failed)
    ensures log + a + b == log + (a + b) && Clean(a + b, failed)
  {
  }

  /** One execution of the parser on what the buffer holds, and the shift after it. */
  method ParseHeld(data: array<byte>, len: nat) returns (l: Line, left: nat)
    requires 0 < len < data.Length
    modifies data
    ensures l == Parse(old(data[..len]))
    ensures left <= len && (l.Size? || l.Partial? ==> left < len)   // so the buffer is never still full
    ensures l == Partial ==> left == 0
    ensures l.Size? ==> data[..left] == old(data[..len])[l.n..]
  {
    var nparse;
    l, nparse := Execute(data, len);
    left := len - nparse;
  }

  // ---------- the inner loop ----------

  /** So far these reads led from `from` to what is held and coming now: what comes goes on from there. */
  ghost predicate SizedOn(from: Flow, rts: seq<int>, held: seq<byte>, coming: seq<byte>) {
    forall more: seq<int> :: Sized(from.(rts := rts + more)) == Sized(Flow(held, coming, more))
  }

  lemma SizedSame(f: Flow, g: Flow)
    requires f.held == g.held && f.coming == g.coming && f.rts == g.rts
    ensures Sized(f) == Sized(g)
  {
    assert f == g;
  }

  lemma SizedStart(from: Flow)
    ensures SizedOn(from, [], from.held, from.coming)
  {
    forall more: seq<int> ensures Sized(from.(rts := [] + more)) == Sized(Flow(from.held, from.coming, more)) {
      SizedSame(from.(rts := [] + more), Flow(from.held, from.coming, more));
    }
  }

  /** One more read fills the buffer, or fails. */
  lemma SizedRead(from: Flow, rts: seq<int>, held: seq<byte>, coming: seq<byte>, r: int)
    requires SizedOn(from, rts, held, coming) && (held == [] || Parse(held) == Partial) && r <= |coming|
    ensures r > 0 ==> SizedOn(from, rts + [r], coming[..r], coming[r..])
    ensures r <= 0 ==> Sized(from.(rts := rts + [r])) == Some((Failed, Flow([], coming, [])))
  {
    if r > 0 {
      forall more: seq<int>
        ensures Sized(from.(rts := rts + [r] + more)) == Sized(Flow(coming[..r], coming[r..], more))
      {
        assert rts + [r] + more == rts + ([r] + more);
        assert ([r] + more)[1..] == more;
      }
    } else {
      assert [r][1..] == [];
    }
  }

  /** A buffer without a whole line is parsed and dropped. */
  lemma SizedDrop(from: Flow, rts: seq<int>, held: seq<byte>, coming: seq<byte>)
    requires SizedOn(from, rts, held, coming) && Parse(held) == Partial
    ensures SizedOn(from, rts, [], coming)
  {
    forall more: seq<int> ensures Sized(from.(rts := rts + more)) == Sized(Flow([], coming, more)) {
      assert Sized(Flow(held, coming, more)) == Sized(Flow([], coming, more));
    }
  }

  lemma SizedDone(from: Flow, rts: seq<int>, held: seq<byte>, coming: seq<byte>)
    requires SizedOn(from, rts, held, coming)
    ensures Sized(from.(rts := rts)) == Sized(Flow(held, coming, []))
  {
    assert rts + [] == rts;
  }

  /** A read into the empty buffer. */
  method Refill(s: Socket, data: array<byte>, ghost from: Flow, ghost rts: seq<int>) returns (rt: int)
    requires 1 < data.Length && SizedOn(from, rts, [], s.coming)
    modifies s`script, s`coming, s`log, data
    ensures rt < data.Length && s.log == old(s.log) + [rt]
    ensures if rt > 0 then SizedOn(from, rts + [rt], data[..rt], s.coming) && |s.coming| < |old(s.coming)|
            else Sized(from.(rts := rts + [rt])) == Some((Failed, Now(s, data, 0)))
    ensures old(s.Steady()) ==> s.Steady() && (rt <= 0 ==> s.coming == [])
  {
    ghost var got;
    rt, got := Receive(s, data, 0, data.Length - 1);
    SizedRead(from, rts, [], old(s.coming), rt);
    if rt > 0 {
      assert data[..rt] == got == old(s.coming)[..rt] && s.coming == old(s.coming)[rt..];
    }
  }

  /** One execution of the parser, and what it makes of the buffer. */
  method ParseOnce(s: Socket, data: array<byte>, len: nat, ghost from: Flow, ghost rts: seq<int>)
    returns (l: Line, left: nat)
    requires 0 < len < data.Length && SizedOn(from, rts, data[..len], s.coming)
    modifies data
    ensures left < data.Length
    ensures if l == Partial then left == 0 && SizedOn(from, rts, [], s.coming)
            else Sized(from.(rts := rts)) == Some((SizingOf(l), Now(s, data, left)))
  {
    ghost var held := data[..len];
    l, left := ParseHeld(data, len);
    if l == Partial {
      SizedDrop(from, rts, held, s.coming);
    } else {
      SizedDone(from, rts, held, s.coming);
      left := if l.Size? then left else 0;
    }
  }

  /** The inner loop goes on, or has this verdict. */
  ghost predicate Sought(from: Flow, rts: seq<int>, r: Option<Sizing>, now: Flow) {
    match r
    case None => now.held == [] && SizedOn(from, rts, [], now.coming)
    case Some(v) => Sized(from.(rts := rts)) == Some((v, now))
  }

  /** One turn of the inner loop: a read, but in the first turn when bytes are held, and an execution. */
  method SizeTurn(s: Socket, data: array<byte>, len: nat, begin: bool, ghost from: Flow, ghost rts: seq<int>)
    returns (r: Option<Sizing>, left: nat, ghost more: seq<int>)
    requires len < data.Length && 1 < data.Length && (!begin ==> len == 0)
    requires SizedOn(from, rts, data[..len], s.coming)
    modifies s`script, s`coming, s`log, data
    ensures left < data.Length && s.log == old(s.log) + more && Clean(more, r == Some(Failed))
    ensures Sought(from, rts + more, r, Now(s, data, left))
    ensures |s.coming| <= |old(s.coming)| - (if r.None? && !begin then 1 else 0)
    ensures old(s.Steady()) ==> s.Steady() && (r == Some(Failed) ==> s.coming == [])
  {
    left, more := len, [];
    if !begin || left == 0 {
      assert data[..0] == [];
      var rt := Refill(s, data, from, rts);
      more := [rt];
      if rt <= 0 {
        return Some(Failed), 0, more;
      }
      left := rt;   // len += rt
    }
    assert more == [] ==> rts + more == rts;
    var l;
    l, left := ParseOnce(s, data, left, from, rts + more);
    r := if l == Partial then None else Some(SizingOf(l));
    assert data[..0] == [];
  }

  /** The inner loop: reads and parses until a size line is found. The parser starts anew on every read. */
  method ReadSize(s: Socket, data: array<byte>, len: nat) returns (r: Sizing, left: nat, ghost rts: seq<int>)
    requires len < data.Length && 1 < data.Length
    modifies s`script, s`coming, s`log, data
    ensures left < data.Length && s.log == old(s.log) + rts && Clean(rts, r == Failed)
    ensures Sized(old(Now(s, data, len)).(rts := rts)) == Some((r, Now(s, data, left)))
    ensures old(s.Steady()) ==> s.Steady() && (r == Failed ==> s.coming == [])
  {
    ghost var from := Now(s, data, len);
    SizedStart(from);
    var found;
    found, left, rts := SizeTurn(s, data, len, true, from, []);
    assert [] + rts == rts;
    while found.None?   // do ... while(!parser->isFinished()); an error leaves the loop too
      invariant left < data.Length && s.log == old(s.log) + rts && Clean(rts, found == Some(Failed))
      invariant Sought(from, rts, found, Now(s, data, left))
      invariant old(s.Steady()) ==> s.Steady() && (found == Some(Failed) ==> s.coming == [])
      decreases found.None?, |s.coming|
    {
      ghost var more;
      found, left, more := SizeTurn(s, data, 0, false, from, rts);
      LoggedBoth(old(s.log), rts, more, found == Some(Failed));
      rts := rts + more;
    }
    r := found.value;
  }

  function SizingOf(l: Line): Sizing {
    match l
    case Size(v, _) => Found(v)
    case Bad => Broken
    case _ => Left
  }

  // ---------- the payload ----------

  /** The payload of a chunk and its line end, from the buffer or over further reads. */
  method ReadPayload(s: Socket, data: array<byte>, len: nat, size: nat, body: seq<byte>)
    returns (ok: bool, left: nat, body': seq<byte>, ghost rts: seq<int>)
    requires len < data.Length && 1 < data.Length
    modifies s`script, s`coming, s`log, data
    ensures left < data.Length && s.log == old(s.log) + rts && Clean(rts, !ok)
    ensures Loaded(old(Now(s, data, len)).(rts := rts), size, body)
         == Some((if ok then Some(body') else None, Now(s, data, left)))
    ensures old(s.Steady()) ==> s.Steady() && (!ok ==> s.coming == [])
  {
    if size + 2 <= len {
      body' := body + data[..size];
      assert data[..size] == data[..len][..size];
      MoveDown(data, size + 2, len - size - 2);
      left := len - size - 2;
      assert data[..left] == old(data[..len])[size + 2..];
      ok, rts := true, [];
      return;
    }
    ghost var held := data[..len];
    body' := body + data[..len];
    left := 0;
    ghost var bytes;
    ok, body', bytes, rts := ReadRest(s, data, size - len + 2, body');
    if ok {
      CutEnd(body, held, bytes, size);
      body' := body'[..|body'| - 2];
    }
  }

  /** Cutting the line end off what was appended leaves the payload. */
  lemma CutEnd(body: seq<byte>, held: seq<byte>, bytes: seq<byte>, size: nat)
    requires |held| + |bytes| == size + 2
    ensures var b := body + held + bytes; b[..|b| - 2] == body + Front(held + bytes)
  {
    assert body + held + bytes == body + (held + bytes);
  }

  /** So far these reads brought these bytes: what comes goes on from there. */
  ghost predicate FilledOn(coming: seq<byte>, n: nat, rts: seq<int>, bytes: seq<byte>, now: seq<byte>) {
    && |bytes| <= n && coming == bytes + now
    && forall more: seq<int> ::
         Filled(coming, rts + more, n) == Joined(bytes, Filled(now, more, n - |bytes|))
  }

  ghost function Joined(bytes: seq<byte>, r: Option<(bool, seq<byte>, Flow)>): Option<(bool, seq<byte>, Flow)> {
    match r
    case None => None
    case Some((ok, b, g)) => Some((ok, bytes + b, g))
  }

  lemma FilledStart(coming: seq<byte>, n: nat)
    ensures FilledOn(coming, n, [], [], coming)
  {
    assert coming == [] + coming;
    forall more: seq<int> ensures Filled(coming, [] + more, n) == Joined([], Filled(coming, more, n)) {
      assert [] + more == more;
      if Filled(coming, more, n).Some? {
        assert [] + Filled(coming, more, n).value.1 == Filled(coming, more, n).value.1;
      }
    }
  }

  lemma FilledRead(coming: seq<byte>, n: nat, rts: seq<int>, bytes: seq<byte>, now: seq<byte>, r: int)
    requires FilledOn(coming, n, rts, bytes, now) && |bytes| < n && 0 < r <= n - |bytes| && r <= |now|
    ensures FilledOn(coming, n, rts + [r], bytes + now[..r], now[r..])
  {
    var bytes', now' := bytes + now[..r], now[r..];
    assert coming == bytes' + now';
    forall more: seq<int>
      ensures Filled(coming, rts + [r] + more, n) == Joined(bytes', Filled(now', more, n - |bytes'|))
    {
      assert rts + [r] + more == rts + ([r] + more);
      assert ([r] + more)[1..] == more;
      var rest := Filled(now', more, n - |bytes'|);
      if rest.Some? {
        assert bytes + (now[..r] + rest.value.1) == bytes' + rest.value.1;
      }
    }
  }

  lemma FilledStops(coming: seq<byte>, n: nat, rts: seq<int>, bytes: seq<byte>, now: seq<byte>, r: int)
    requires FilledOn(coming, n, rts, bytes, now) && |bytes| < n && r <= 0
    ensures Filled(coming, rts + [r], n) == Some((false, bytes, Flow([], now, [])))
  {
    assert Filled(now, [r], n - |bytes|) == Some((false, [], Flow([], now, [r][1..])));
    assert [r][1..] == [] && bytes + [] == bytes;
  }

  lemma FilledEnds(coming: seq<byte>, n: nat, rts: seq<int>, bytes: seq<byte>, now: seq<byte>)
    requires FilledOn(coming, n, rts, bytes, now) && |bytes| == n
    ensures Filled(coming, rts, n) == Some((true, bytes, Flow([], now, [])))
  {
    assert rts + [] == rts && bytes + [] == bytes;
    assert Filled(now, [], 0) == Some((true, [], Flow([], now, [])));
  }

  /** Appends exactly `n` more bytes to the body, over as many reads as it takes. */
  method ReadRest(s: Socket, data: array<byte>, n: nat, body: seq<byte>)
    returns (ok: bool, body': seq<byte>, ghost bytes: seq<byte>, ghost rts: seq<int>)
    requires 1 < data.Length
    modifies s`script, s`coming, s`log, data
    ensures s.log == old(s.log) + rts && Clean(rts, !ok)
    ensures Filled(old(s.coming), rts, n) == Some((ok, bytes, Flow([], s.coming, [])))
    ensures ok ==> |bytes| == n && body' == body + bytes
    ensures old(s.Steady()) ==> s.Steady() && (!ok ==> s.coming == [])
  {
    body', bytes, rts := body, [], [];
    var rest: nat := n;
    FilledStart(s.coming, n);
    while rest > 0
      invariant |bytes| + rest == n && body' == body + bytes && FilledOn(old(s.coming), n, rts, bytes, s.coming)
      invariant s.log == old(s.log) + rts && Clean(rts, false)
      invariant old(s.Steady()) ==> s.Steady()
    {
      ghost var now := s.coming;
      var rt;
      ghost var got;
      rt, got := Receive(s, data, 0, if rest > data.Length - 1 then data.Length - 1 else rest);
      Logged(old(s.log), rts, rt);
      if rt <= 0 {
        FilledStops(old(s.coming), n, rts, bytes, now, rt);
        rts := rts + [rt];
        return false, body', bytes, rts;
      }
      FilledRead(old(s.coming), n, rts, bytes, now, rt);
      assert data[..rt] == got == now[..rt];
      assert body + bytes + got == body + (bytes + got);
      body' := body' + data[..rt];
      bytes, rts := bytes + got, rts + [rt];
      rest := rest - rt;
    }
    FilledEnds(old(s.coming), n, rts, bytes, s.coming);
    ok := true;
  }

  // ---------- the whole body ----------

  /** One pass of the outer loop: a size line, then its payload. */
  method OneChunk(s: Socket, data: array<byte>, len: nat, body: seq<byte>)
    returns (turn: Turn, left: nat, ghost rts: seq<int>)
    requires len < data.Length && 1 < data.Length
    modifies s`script, s`coming, s`log, s`connected, data
    ensures left < data.Length && s.log == old(s.log) + rts && Clean(rts, turn == Ends(Cut))
    ensures Pass(old(Now(s, data, len)).(rts := rts), body) == Some((turn, Now(s, data, left)))
    ensures turn == Ends(Cut) || turn == Ends(Broke) ==> !s.connected
    ensures old(s.Steady()) ==> if turn.Again? then s.Steady() else turn == Ends(Cut) ==> s.coming == []
  {
    ghost var from := Now(s, data, len);
    var size;
    size, left, rts := ReadSize(s, data, len);
    if !size.Found? {
      s.connected := s.connected && size == Left;
      turn := Ends(match size case Failed => Cut case Broken => Broke case _ => Away);
      return;
    }
    var ok, body';
    ghost var mid, more := Now(s, data, left), [];
    ok, left, body', more := ReadPayload(s, data, left, size.v, body);
    PassIs(from, rts, size.v, mid, more, body, if ok then Some(body') else None, Now(s, data, left));
    LoggedBoth(old(s.log), rts, more, !ok);
    rts := rts + more;
    if !ok {
      s.connected := false;
      turn := Ends(Cut);
    } else {
      turn := if size.v == 0 then Ends(Done(body')) else Again(body');
    }
  }

  /** So far these reads led from `from` to here: what comes goes on from here. */
  ghost predicate ReceivedOn(from: Flow, rts: seq<int>, here: Flow, body: seq<byte>) {
    forall more: seq<int> :: Received(from.(rts := rts + more), []) == Received(here.(rts := more), body)
  }

  lemma ReceivedStart(from: Flow)
    ensures ReceivedOn(from, [], from, [])
  {
    forall more: seq<int> ensures Received(from.(rts := [] + more), []) == Received(from.(rts := more), []) {
      assert [] + more == more;
    }
  }

  lemma ReceivedPass(from: Flow, rts: seq<int>, here: Flow, body: seq<byte>, passed: seq<int>, turn: Turn, next: Flow)
    requires ReceivedOn(from, rts, here, body) && next.rts == []
    requires Pass(here.(rts := passed), body) == Some((turn, next))
    ensures match turn
            case Again(b) => ReceivedOn(from, rts + passed, next, b)
            case Ends(e) => Received(from.(rts := rts + passed), []) == Some((e, next))
  {
    match turn
    case Ends(e) =>
    case Again(b) =>
      forall more: seq<int> ensures Received(from.(rts := rts + passed + more), []) == Received(next.(rts := more), b) {
        assert rts + passed + more == rts + (passed + more);
        PassMore(here.(rts := passed), body, more);
        assert [] + more == more;
      }
  }

  /** The chunked path of recvResponse: what is received is a function of the bytes and of what the reads gave. */
  method RecvChunked(s: Socket, data: array<byte>, offset: nat)
    returns (r: Reply, left: nat, ghost end: End, ghost rts: seq<int>)
    requires offset < data.Length && 1 < data.Length
    modifies s`script, s`coming, s`log, s`connected, data
    ensures left < data.Length && s.log == old(s.log) + rts && Clean(rts, end == Cut)
    ensures Received(old(Now(s, data, offset)).(rts := rts), []) == Some((end, Now(s, data, left)))
    ensures match end
            case Done(body) => r == Body(body)
            case Away => r == Unknown
            case _ => r == Null && !s.connected
    ensures old(s.Steady()) && end == Cut ==> s.coming == []
  {
    ghost var from := Now(s, data, offset);
    left, rts := offset, [];
    var turn := Again([]);
    ReceivedStart(from);
    while turn.Again?   // while(!client_parser.chunks_done)
      invariant left < data.Length && s.log == old(s.log) + rts && Clean(rts, turn == Ends(Cut))
      invariant turn.Again? ==> ReceivedOn(from, rts, Now(s, data, left), turn.body)
      invariant turn.Ends? ==> Received(from.(rts := rts), []) == Some((turn.end, Now(s, data, left)))
      invariant turn == Ends(Cut) || turn == Ends(Broke) ==> !s.connected
      invariant old(s.Steady()) ==> if turn.Again? then s.Steady() else turn == Ends(Cut) ==> s.coming == []
      decreases turn.Again?, |Ahead(s, data, left)|
    {
      ghost var here, body := Now(s, data, left), turn.body;
      ghost var passed;
      turn, left, passed := OneChunk(s, data, left, turn.body);
      ReceivedPass(from, rts, here, body, passed, turn, Now(s, data, left));
      LoggedBoth(old(s.log), rts, passed, turn == Ends(Cut));
      rts := rts + passed;
    }
    end := turn.end;
    r := ReplyOf(turn.end);
  }

  /** The theorem for the method. When neither the buffer nor a logged read ends inside a size line past its
      leading zeros, the body is the payloads' concatenation exactly when no read failed, and what follows the
      last chunk is still ahead. No read fails when the connection supplies all that is coming, or when the
      buffer holds all from the start. */
  method RecvEncoded(s: Socket, data: array<byte>, offset: nat, ghost chunks: seq<Chunk>, ghost rest: seq<byte>)
    returns (r: Reply, left: nat, ghost rts: seq<int>)
    requires offset < data.Length && 1 < data.Length
    requires ChunkList(chunks) && Ahead(s, data, offset) == Encode(chunks) + rest
    modifies s`script, s`coming, s`log, s`connected, data
    ensures left < data.Length && s.log == old(s.log) + rts
    ensures EndsOk(chunks, offset, rts) ==>
              if Clean(rts, false) then r == Body(Payload(chunks)) && Ahead(s, data, left) == rest
              else r == Null && !s.connected
    ensures EndsOk(chunks, offset, rts) && old(s.Steady()) ==>
              r == Body(Payload(chunks)) && Ahead(s, data, left) == rest
    ensures offset >= |Encode(chunks)| ==> r == Body(Payload(chunks)) && Ahead(s, data, left) == rest
  {
    ghost var from := Now(s, data, offset);
    ghost var end;
    r, left, end, rts := RecvChunked(s, data, offset);
    if offset >= |Encode(chunks)| {
      EndsBeyond(chunks, offset, rts);
      ReceivedTakes(from.(rts := rts), []);
    }
    if EndsOk(chunks, offset, rts) {
      ReceivedInverts(chunks, from.(rts := rts), [], rest);
      assert [] + Payload(chunks) == Payload(chunks);
    }
  }

  // ---------- by length ----------

  /** readFixSize into plain memory: all of `n` bytes, or a failed read. */
  method ReadFix(s: Socket, n: nat) returns (ok: bool, bytes: seq<byte>, ghost rts: seq<int>)
    modifies s`script, s`coming, s`log
    ensures ok ==> |bytes| == n && old(s.coming) == bytes + s.coming
    ensures s.log == old(s.log) + rts && Clean(rts, !ok)
    ensures old(s.Steady()) ==> (ok <==> n <= |old(s.coming)|)
  {
    bytes, rts := [], [];
    var rest: nat := n;
    while rest > 0
      invariant |bytes| + rest == n && old(s.coming) == bytes + s.coming
      invariant s.log == old(s.log) + rts && Clean(rts, false)
      invariant old(s.Steady()) ==> s.Steady()
    {
      var rt, got := s.Recv(rest);
      Logged(old(s.log), rts, rt);
      rts := rts + [rt];
      if rt <= 0 {
        return false, bytes, rts;
      }
      assert bytes + (got + s.coming) == (bytes + got) + s.coming;
      bytes := bytes + got;
      rest := rest - rt;
    }
    ok := true;
  }

  /** The other path of recvResponse: the body has the announced length, first from the buffer. */
  method RecvLength(s: Socket, data: array<byte>, offset: nat, length: nat) returns (r: Reply, ghost rts: seq<int>)
    requires offset < data.Length
    modifies s`script, s`coming, s`log, s`connected
    ensures s.log == old(s.log) + rts && Clean(rts, r == Null) && (r == Null ==> !s.connected)
    ensures r.Body? || r == Null
    ensures r.Body? ==> length <= |old(Ahead(s, data, offset))| && r.bytes == old(Ahead(s, data, offset))[..length]
    ensures r.Body? ==> s.coming == old(Ahead(s, data, offset))[if length >= offset then length else offset..]
    ensures old(s.Steady()) ==> (r.Body? <==> length <= |old(Ahead(s, data, offset))|)
    ensures length <= offset ==> r.Body? && rts == []
  {
    var body := data[..if length >= offset then offset else length];
    rts := [];
    if length > offset {
      var ok, bytes;
      ok, bytes, rts := ReadFix(s, length - offset);
      if !ok {
        s.connected := false;
        r := Null;
        return;
      }
      body := body + bytes;
    }
    r := Body(body);
  }
}

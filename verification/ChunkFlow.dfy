/** Receiving a chunked body as a function of the bytes on their way and of what each read returned; and that
    it inverts the encoding for every split of the reads that does no harm to a size line. */
module ChunkFlow {
  import opened Basics
  import opened ChunkSpec

  /** The buffer's bytes, those on the connection, and what the reads to come return. */
  datatype Flow = Flow(held: seq<byte>, coming: seq<byte>, rts: seq<int>)

  /** A size line was found; a read failed; the line is in error; or the parser left the states modelled. */
  datatype Sizing = Found(v: nat) | Failed | Broken | Left

  /** How receiving ends: with the body, on a failed read, on a broken line, or outside of what is modelled. */
  datatype End = Done(body: seq<byte>) | Cut | Broke | Away

  /** The inner loop. A buffer that holds no whole line is parsed and dropped, and the next read fills it. None
      when these reads do not reach, or exceed what is coming. */
  ghost function Sized(f: Flow): (r: Option<(Sizing, Flow)>)
    ensures r.Some? ==> |r.value.1.held| + |r.value.1.coming| <= |f.held| + |f.coming|
    ensures r.Some? && r.value.0.Found? ==> |r.value.1.held| + |r.value.1.coming| < |f.held| + |f.coming|
    decreases |f.rts|
  {
    if f.held != [] && Parse(f.held) != Partial then
      match Parse(f.held)
      case Size(v, n) => Some((Found(v), f.(held := f.held[n..])))
      case Bad => Some((Broken, f.(held := [])))
      case _ => Some((Left, f.(held := [])))
    else if f.rts == [] then None
    else if f.rts[0] <= 0 then Some((Failed, Flow([], f.coming, f.rts[1..])))
    else if f.rts[0] > |f.coming| then None
    else Sized(Flow(f.coming[..f.rts[0]], f.coming[f.rts[0]..], f.rts[1..]))
  }

  /** Reading exactly `n` more bytes: whether all came, the bytes, and what is left. */
  ghost function Filled(coming: seq<byte>, rts: seq<int>, n: nat): (r: Option<(bool, seq<byte>, Flow)>)
    ensures r.Some? ==> |r.value.2.coming| <= |coming| && r.value.2.held == []
    decreases |rts|
  {
    if n == 0 then Some((true, [], Flow([], coming, rts)))
    else if rts == [] then None
    else if rts[0] <= 0 then Some((false, [], Flow([], coming, rts[1..])))
    else if rts[0] > n || rts[0] > |coming| then None
    else
      match Filled(coming[rts[0]..], rts[1..], n - rts[0])
      case None => None
      case Some((ok, b, g)) => Some((ok, coming[..rts[0]] + b, g))
  }

  /** The payload of a chunk and its line end: the body after it, none on a failed read. */
  ghost function Loaded(f: Flow, size: nat, body: seq<byte>): (r: Option<(Option<seq<byte>>, Flow)>)
    ensures r.Some? ==> |r.value.1.held| + |r.value.1.coming| <= |f.held| + |f.coming|
  {
    if size + 2 <= |f.held| then
      Some((Some(body + f.held[..size]), f.(held := f.held[size + 2..])))
    else
      match Filled(f.coming, f.rts, size + 2 - |f.held|)
      case None => None
      case Some((ok, b, g)) => Some((if ok then Some(body + Front(f.held + b)) else None, g))
  }

  /** All but the line end. */
  function Front(s: seq<byte>): seq<byte> {
    if |s| < 2 then [] else s[..|s| - 2]
  }

  /** A pass of the outer loop goes on with this body, or ends receiving. */
  datatype Turn = Again(body: seq<byte>) | Ends(end: End)

  /** The rest of a pass, once the size is known. */
  ghost function AfterSize(g: Flow, v: nat, body: seq<byte>): (r: Option<(Turn, Flow)>)
    ensures r.Some? ==> |r.value.1.held| + |r.value.1.coming| <= |g.held| + |g.coming|
  {
    match Loaded(g, v, body)
    case None => None
    case Some((None, h)) => Some((Ends(Cut), h))
    case Some((Some(b), h)) => Some((if v == 0 then Ends(Done(b)) else Again(b), h))
  }

  /** One pass of the outer loop: a size line, its payload and the line end. */
  ghost function Pass(f: Flow, body: seq<byte>): (r: Option<(Turn, Flow)>)
    ensures r.Some? && r.value.0.Again? ==> |r.value.1.held| + |r.value.1.coming| < |f.held| + |f.coming|
  {
    match Sized(f)
    case None => None
    case Some((Failed, g)) => Some((Ends(Cut), g))
    case Some((Broken, g)) => Some((Ends(Broke), g))
    case Some((Left, g)) => Some((Ends(Away), g))
    case Some((Found(v), g)) => AfterSize(g, v, body)
  }

  /** The whole body. */
  ghost function Received(f: Flow, body: seq<byte>): Option<(End, Flow)>
    decreases |f.held| + |f.coming|
  {
    match Pass(f, body)
    case None => None
    case Some((Ends(e), g)) => Some((e, g))
    case Some((Again(b), g)) => Received(g, b)
  }

  // ---------- more reads than needed ----------

  function More(f: Flow, more: seq<int>): Flow {
    f.(rts := f.rts + more)
  }

  lemma {:induction false} SizedMore(f: Flow, more: seq<int>)
    requires Sized(f).Some?
    ensures Sized(More(f, more)) == Some((Sized(f).value.0, More(Sized(f).value.1, more)))
    decreases |f.rts|
  {
    if !(f.held != [] && Parse(f.held) != Partial) {
      var r := f.rts[0];
      assert (f.rts + more)[0] == r && (f.rts + more)[1..] == f.rts[1..] + more;
      if 0 < r {
        SizedMore(Flow(f.coming[..r], f.coming[r..], f.rts[1..]), more);
      }
    }
  }

  lemma {:induction false} FilledMore(coming: seq<byte>, rts: seq<int>, n: nat, more: seq<int>)
    requires Filled(coming, rts, n).Some?
    ensures var (ok, b, g) := Filled(coming, rts, n).value;
            Filled(coming, rts + more, n) == Some((ok, b, More(g, more)))
    decreases |rts|
  {
    if n > 0 {
      var r := rts[0];
      assert (rts + more)[0] == r && (rts + more)[1..] == rts[1..] + more;
      if 0 < r {
        FilledMore(coming[r..], rts[1..], n - r, more);
      }
    }
  }

  lemma LoadedMore(f: Flow, size: nat, body: seq<byte>, more: seq<int>)
    requires Loaded(f, size, body).Some?
    ensures Loaded(More(f, more), size, body)
         == Some((Loaded(f, size, body).value.0, More(Loaded(f, size, body).value.1, more)))
  {
    if size + 2 > |f.held| {
      FilledMore(f.coming, f.rts, size + 2 - |f.held|, more);
    }
  }

  lemma PassMore(f: Flow, body: seq<byte>, more: seq<int>)
    requires Pass(f, body).Some?
    ensures Pass(More(f, more), body) == Some((Pass(f, body).value.0, More(Pass(f, body).value.1, more)))
  {
    SizedMore(f, more);
    match Sized(f)
    case Some((Found(v), g)) => LoadedMore(g, v, body, more);
    case _ =>
  }

  /** A size line over some reads and its payload over more make a pass. */
  lemma PassIs(f: Flow, a: seq<int>, v: nat, g: Flow, b: seq<int>, body: seq<byte>, p: Option<seq<byte>>, h: Flow)
    requires Sized(f.(rts := a)) == Some((Found(v), g)) && g.rts == []
    requires Loaded(g.(rts := b), v, body) == Some((p, h))
    ensures Pass(f.(rts := a + b), body)
         == Some((if p.None? then Ends(Cut) else if v == 0 then Ends(Done(p.value)) else Again(p.value), h))
  {
    SizedMore(f.(rts := a), b);
    assert [] + b == b;
  }

  /** A line in error ends receiving at once, with no further read. */
  lemma WrongLine(f: Flow, body: seq<byte>, i: nat)
    requires WrongAt(f.held, i)
    ensures Received(f, body) == Some((Broke, f.(held := [])))
  {
    RefusedExact(f.held);
  }

  // ---------- nothing comes that was not coming ----------

  lemma {:induction false} SizedTakes(f: Flow)
    requires Sized(f).Some?
    ensures |Sized(f).value.1.coming| <= |f.coming|
    decreases |f.rts|
  {
    if !(f.held != [] && Parse(f.held) != Partial) && 0 < f.rts[0] {
      SizedTakes(Flow(f.coming[..f.rts[0]], f.coming[f.rts[0]..], f.rts[1..]));
    }
  }

  lemma PassTakes(f: Flow, body: seq<byte>)
    requires Pass(f, body).Some?
    ensures |Pass(f, body).value.1.coming| <= |f.coming|
  {
    SizedTakes(f);
  }

  lemma {:induction false} ReceivedTakes(f: Flow, body: seq<byte>)
    requires Received(f, body).Some?
    ensures |Received(f, body).value.1.coming| <= |f.coming|
    decreases |f.held| + |f.coming|
  {
    PassTakes(f, body);
    var (turn, g) := Pass(f, body).value;
    if turn.Again? {
      ReceivedTakes(g, turn.body);
    }
  }

  // ---------- the split of the reads ----------

  /** A read that ends after `e` bytes of these chunks does no harm: not inside a size line, or only within its
      leading zeros. */
  predicate EndOk(chunks: seq<Chunk>, e: nat) {
    if chunks == [] then true
    else if e < |chunks[0].line.Text()| then Harmless(chunks[0].line, e)
    else if e < |chunks[0].Text()| then true
    else EndOk(chunks[1..], e - |chunks[0].Text()|)
  }

  /** The buffer ends after `e` bytes of the chunks, and then each read does; none does harm. */
  predicate EndsOk(chunks: seq<Chunk>, e: nat, rts: seq<int>)
    decreases |rts|
  {
    && EndOk(chunks, e)
    && (rts != [] && rts[0] > 0 ==> EndsOk(chunks, e + rts[0], rts[1..]))
  }

  /** Past the first chunk, the ends are those in the others. */
  lemma {:induction false} EndsShift(chunks: seq<Chunk>, e: nat, rts: seq<int>)
    requires chunks != []
    ensures EndsOk(chunks, |chunks[0].Text()| + e, rts) <==> EndsOk(chunks[1..], e, rts)
    decreases |rts|
  {
    if rts != [] && rts[0] > 0 {
      EndsShift(chunks, e + rts[0], rts[1..]);
    }
  }

  /** Two cuts of the same bytes. */
  lemma Align(a: seq<byte>, b: seq<byte>, c: seq<byte>, d: seq<byte>)
    requires a + b == c + d
    ensures |a| >= |c| ==> a == c + d[..|a| - |c|] && a[|c|..] + b == d && b == d[|a| - |c|..]
    ensures |a| < |c| ==> b == c[|a|..] + d && a == c[..|a|]
  {
    assert (a + b)[..|a|] == a && (a + b)[|a|..] == b;
    assert (c + d)[|c|..] == d && (c + d)[..|c|] == c;
    if |a| >= |c| {
      assert (a + b)[|c|..] == a[|c|..] + b;
      assert (c + d)[..|a|] == c + d[..|a| - |c|];
    } else {
      assert (c + d)[|a|..] == c[|a|..] + d;
    }
  }

  /** A buffer has a verdict exactly when it holds the rest of the size line, and then that line's. */
  lemma HeldLine(c: Chunk, lost: nat, f: Flow, tail: seq<byte>)
    requires c.Valid() && Harmless(c.line, lost)
    requires f.held + f.coming == c.line.Text()[lost..] + tail
    ensures Parse(f.held) != Partial <==> |f.held| >= |c.line.Text()| - lost
    ensures Parse(f.held) != Partial ==> Parse(f.held) == Size(|c.payload|, |c.line.Text()| - lost)
  {
    var t := c.line.Text()[lost..];
    Align(f.held, f.coming, t, tail);
    if |f.held| >= |t| {
      SplitLine(c.line, lost, tail[..|f.held| - |t|]);
    } else if Parse(f.held) != Partial {
      Extend(f.held, f.coming);
      SplitLine(c.line, lost, tail);
    }
  }

  /** A read that does not fail fills the buffer. */
  lemma SizedNext(f: Flow)
    requires (f.held == [] || Parse(f.held) == Partial) && f.rts != [] && 0 < f.rts[0] <= |f.coming|
    ensures Sized(f) == Sized(Flow(f.coming[..f.rts[0]], f.coming[f.rts[0]..], f.rts[1..]))
    ensures f.coming[..f.rts[0]] + f.coming[f.rts[0]..] == f.coming
  {
  }

  /** The size is that of the first chunk and `tail` is left, or a read failed while bytes were still to come. */
  predicate SizeRead(r: Option<(Sizing, Flow)>, chunks: seq<Chunk>, tail: seq<byte>)
    requires chunks != []
  {
    match r
    case None => true
    case Some((Found(v), g)) =>
      && v == |chunks[0].payload| && g.held + g.coming == tail
      && EndsOk(chunks, |chunks[0].line.Text()| + |g.held|, g.rts)
    case Some((Failed, g)) => |g.coming| > |tail|
    case Some(_) => false
  }

  lemma SizedHere(chunks: seq<Chunk>, lost: nat, f: Flow, tail: seq<byte>)
    requires chunks != [] && chunks[0].Valid() && Harmless(chunks[0].line, lost)
    requires f.held + f.coming == chunks[0].line.Text()[lost..] + tail
    requires EndsOk(chunks, lost + |f.held|, f.rts) && lost + |f.held| >= |chunks[0].line.Text()|
    ensures SizeRead(Sized(f), chunks, tail)
  {
    HeldLine(chunks[0], lost, f, tail);
    Align(f.held, f.coming, chunks[0].line.Text()[lost..], tail);
  }

  lemma {:induction false} SizedInverts(chunks: seq<Chunk>, lost: nat, f: Flow, tail: seq<byte>)
    requires chunks != [] && chunks[0].Valid() && Harmless(chunks[0].line, lost)
    requires f.held + f.coming == chunks[0].line.Text()[lost..] + tail
    requires EndsOk(chunks, lost + |f.held|, f.rts)
    ensures SizeRead(Sized(f), chunks, tail)
    decreases |f.rts|
  {
    var t, now := chunks[0].line.Text(), lost + |f.held|;
    if now >= |t| {
      SizedHere(chunks, lost, f, tail);
    } else {
      HeldLine(chunks[0], lost, f, tail);
      Align(f.held, f.coming, t[lost..], tail);
      assert t[lost..][|f.held|..] == t[now..];
      if f.rts != [] && 0 < f.rts[0] <= |f.coming| {
        var r := f.rts[0];
        SizedNext(f);
        SizedInverts(chunks, now, Flow(f.coming[..r], f.coming[r..], f.rts[1..]), tail);
      }
    }
  }

  lemma {:induction false} FilledInverts(chunks: seq<Chunk>, e: nat, coming: seq<byte>, rts: seq<int>, n: nat)
    requires n <= |coming| && EndsOk(chunks, e, rts)
    ensures match Filled(coming, rts, n)
            case None => true
            case Some((ok, b, g)) =>
              if ok then b == coming[..n] && g.coming == coming[n..] && EndsOk(chunks, e + n, g.rts)
              else |g.coming| > |coming| - n
    decreases |rts|
  {
    if n > 0 && rts != [] && 0 < rts[0] <= n {
      var r := rts[0];
      FilledInverts(chunks, e + r, coming[r..], rts[1..], n - r);
      Rejoin(coming, r, n);
    }
  }

  lemma Rejoin(s: seq<byte>, r: nat, n: nat)
    requires r <= n <= |s|
    ensures s[..r] + s[r..][..n - r] == s[..n] && s[r..][n - r..] == s[n..]
  {
  }

  /** The payload is taken, and what follows its line end is left; or a read failed before. */
  predicate LoadRead(r: Option<(Option<seq<byte>>, Flow)>, chunks: seq<Chunk>, body: seq<byte>, more: seq<byte>)
    requires chunks != []
  {
    match r
    case None => true
    case Some((None, g)) => |g.coming| > |more|
    case Some((Some(b), g)) =>
      b == body + chunks[0].payload && g.held + g.coming == more && EndsOk(chunks[1..], |g.held|, g.rts)
  }

  lemma LoadedHere(chunks: seq<Chunk>, f: Flow, body: seq<byte>, more: seq<byte>)
    requires chunks != [] && f.held + f.coming == chunks[0].payload + [CR, LF] + more
    requires EndsOk(chunks, |chunks[0].line.Text()| + |f.held|, f.rts) && |chunks[0].payload| + 2 <= |f.held|
    ensures LoadRead(Loaded(f, |chunks[0].payload|, body), chunks, body, more)
  {
    var p, n := chunks[0].payload, |chunks[0].payload| + 2;
    Align(f.held, f.coming, p + [CR, LF], more);
    assert f.held[..|p|] == p && f.held[n..] + f.coming == more;
    EndsShift(chunks, |f.held| - n, f.rts);
  }

  lemma LoadedInverts(chunks: seq<Chunk>, f: Flow, body: seq<byte>, more: seq<byte>)
    requires chunks != [] && f.held + f.coming == chunks[0].payload + [CR, LF] + more
    requires EndsOk(chunks, |chunks[0].line.Text()| + |f.held|, f.rts)
    ensures LoadRead(Loaded(f, |chunks[0].payload|, body), chunks, body, more)
  {
    var p := chunks[0].payload;
    var e, n := |chunks[0].line.Text()| + |f.held|, |p| + 2;
    if n <= |f.held| {
      LoadedHere(chunks, f, body, more);
    } else {
      Halves(p, f.held, f.coming, more);
      FilledInverts(chunks, e, f.coming, f.rts, n - |f.held|);
      match Filled(f.coming, f.rts, n - |f.held|)
      case Some((true, b, g)) => EndsShift(chunks, 0, g.rts);
      case _ =>
    }
  }

  lemma Halves(p: seq<byte>, held: seq<byte>, coming: seq<byte>, more: seq<byte>)
    requires held + coming == p + [CR, LF] + more && |held| < |p| + 2
    ensures |coming| >= |p| + 2 - |held| && Front(held + coming[..|p| + 2 - |held|]) == p
    ensures coming[|p| + 2 - |held|..] == more
  {
    var k := |p| + 2 - |held|;
    assert |held + coming| == |p| + 2 + |more|;
    assert held + coming[..k] == (held + coming)[..|p| + 2] == p + [CR, LF];
    assert coming[k..] == (held + coming)[|p| + 2..] == more;
  }

  /** The pass took the first chunk, and what follows it is left; or a read failed while bytes were still to
      come. */
  predicate PassInverted(r: Option<(Turn, Flow)>, chunks: seq<Chunk>, body: seq<byte>, more: seq<byte>)
    requires chunks != []
  {
    match r
    case None => true
    case Some((Again(b), g)) =>
      && chunks[0].payload != [] && b == body + chunks[0].payload
      && g.held + g.coming == more && EndsOk(chunks[1..], |g.held|, g.rts)
    case Some((Ends(Done(b)), g)) =>
      chunks[0].payload == [] && b == body + chunks[0].payload && g.held + g.coming == more
    case Some((Ends(Cut), g)) => |g.coming| > |more|
    case Some(_) => false
  }

  lemma PassInverts(chunks: seq<Chunk>, f: Flow, body: seq<byte>, more: seq<byte>)
    requires chunks != [] && chunks[0].Valid() && EndsOk(chunks, |f.held|, f.rts)
    requires f.held + f.coming == chunks[0].line.Text()[0..] + (chunks[0].payload + [CR, LF] + more)
    ensures PassInverted(Pass(f, body), chunks, body, more)
  {
    var tail := chunks[0].payload + [CR, LF] + more;
    SizedInverts(chunks, 0, f, tail);
    assert SizeRead(Sized(f), chunks, tail);
    match Sized(f)
    case Some((Found(v), g)) =>
      LoadedInverts(chunks, g, body, more);
      assert LoadRead(Loaded(g, v, body), chunks, body, more);
    case _ =>
  }

  /** The body is this and these bytes are left, or a read failed while bytes were still to come. */
  predicate Inverted(r: Option<(End, Flow)>, body: seq<byte>, rest: seq<byte>) {
    match r
    case None => true
    case Some((Done(b), g)) => b == body && g.held + g.coming == rest
    case Some((Cut, g)) => |g.coming| > |rest|
    case Some(_) => false
  }

  /** Receiving inverts encoding: for all chunks and every split of the reads that does no harm to a size line,
      the body is the payloads' concatenation, and no byte after the last line end is taken. Otherwise a read
      failed, and then bytes of the encoding were still to come. */
  lemma {:induction false} ReceivedInverts(chunks: seq<Chunk>, f: Flow, body: seq<byte>, rest: seq<byte>)
    requires ChunkList(chunks) && f.held + f.coming == Encode(chunks) + rest && EndsOk(chunks, |f.held|, f.rts)
    ensures Inverted(Received(f, body), body + Payload(chunks), rest)
    decreases |chunks|
  {
    FirstText(chunks[0], Encode(chunks[1..]), rest);
    PassInverts(chunks, f, body, Encode(chunks[1..]) + rest);
    LastOrMore(chunks, body, rest);
    match Pass(f, body)
    case Some((Again(b), g)) => ReceivedInverts(chunks[1..], g, b, rest);
    case _ =>
  }

  /** Once the buffer holds all of the encoding, no read can harm it. */
  lemma {:induction false} EndsBeyond(chunks: seq<Chunk>, e: nat, rts: seq<int>)
    requires e >= |Encode(chunks)|
    ensures EndsOk(chunks, e, rts)
    decreases |rts|
  {
    EndBeyond(chunks, e);
    if rts != [] && rts[0] > 0 {
      EndsBeyond(chunks, e + rts[0], rts[1..]);
    }
  }

  lemma {:induction false} EndBeyond(chunks: seq<Chunk>, e: nat)
    requires e >= |Encode(chunks)|
    ensures EndOk(chunks, e)
  {
    if chunks != [] {
      EndBeyond(chunks[1..], e - |chunks[0].Text()|);
    }
  }

  lemma LastOrMore(chunks: seq<Chunk>, body: seq<byte>, rest: seq<byte>)
    requires ChunkList(chunks)
    ensures body + chunks[0].payload + Payload(chunks[1..]) == body + Payload(chunks)
    ensures if chunks[0].payload == [] then Payload(chunks) == [] && Encode(chunks[1..]) + rest == rest
            else ChunkList(chunks[1..])
  {
    assert forall i | 0 <= i < |chunks| - 1 :: chunks[1..][i] == chunks[i + 1];
  }

  lemma FirstText(c: Chunk, others: seq<byte>, rest: seq<byte>)
    ensures c.Text() + others + rest == c.line.Text()[0..] + (c.payload + [CR, LF] + (others + rest))
  {
  }
}

/** Uri::Create: the automaton runs over the text with a position, a mark and a state, and sets the fields. */
module Uris {
  import opened Basics
  import Spec = UriSpec

  /** What Create comes to: a Uri, a null pointer, no defined behaviour, or states that are not modelled. */
  datatype Outcome = Created | NullPointer | Undefined | Unmodelled

  class Uri {
    var scheme: seq<byte>
    var userinfo: seq<byte>
    var host: seq<byte>
    var port: nat
    var path: seq<byte>
    var query: seq<byte>
    var fragment: seq<byte>

    constructor ()
      ensures Value() == Spec.EMPTY
    {
      scheme, userinfo, host, port, path, query, fragment := [], [], [], 0, [], [], [];
    }

    ghost function Value(): Spec.Uri
      reads this
    {
      Spec.Uri(scheme, userinfo, host, port, path, query, fragment)
    }

    /** One action at position `p`. */
    method Perform(act: Spec.Prim, s: seq<byte>, p: nat, mark: Option<nat>) returns (ok: bool, mark': Option<nat>)
      requires p <= |s| && (mark.Some? ==> mark.value <= p)
      requires act == Spec.SetPort ==> p == |s| || !IsDigit(s[p])
      modifies this
      ensures mark'.Some? ==> mark'.value <= p
      ensures match Spec.Do(act, Marked(s, mark, p), old(Value()))
              case None => !ok
              case Some((acc, u)) => ok && Value() == u && Marked(s, mark', p) == acc
    {
      ok, mark' := true, None;
      match act
      case Mark =>
        mark' := Some(p);
        assert s[p..p] == [];
      case SetHost =>
        mark' := mark;
        if mark.Some? {
          host := s[mark.value..p];
        }
      case SetUserinfo =>
        if mark.Some? {
          userinfo := s[mark.value..p];
        }
      case SetPort =>
        if mark.None? {
          return false, None;
        }
        if p != mark.value {
          var fits, v := PortAt(s, mark.value, p);
          if !fits {
            return false, None;
          }
          port := v;
        }
      case SetScheme =>
        if mark.None? {
          return false, None;
        }
        scheme := s[mark.value..p];
      case SetPath =>
        if mark.None? {
          return false, None;
        }
        path := s[mark.value..p];
      case SetQuery =>
        if mark.None? {
          return false, None;
        }
        query := s[mark.value..p];
      case SetFragment =>
        if mark.None? {
          return false, None;
        }
        fragment := s[mark.value..p];
    }

    /** The actions of one transition, in order. */
    method PerformAll(acts: seq<Spec.Prim>, s: seq<byte>, p: nat, mark: Option<nat>)
      returns (ok: bool, mark': Option<nat>)
      requires p <= |s| && (mark.Some? ==> mark.value <= p)
      requires Spec.SetPort in acts ==> p == |s| || !IsDigit(s[p])
      modifies this
      ensures mark'.Some? ==> mark'.value <= p
      ensures match Spec.DoAll(acts, Marked(s, mark, p), old(Value()))
              case None => !ok
              case Some((acc, u)) => ok && Value() == u && Marked(s, mark', p) == acc
    {
      ok, mark' := true, mark;
      var i: nat := 0;
      while i < |acts|
        invariant i <= |acts| && (mark'.Some? ==> mark'.value <= p)
        invariant Spec.DoAll(acts, Marked(s, mark, p), old(Value()))
               == Spec.DoAll(acts[i..], Marked(s, mark', p), Value())
      {
        assert acts[i] in acts && acts[i..][0] == acts[i] && acts[i..][1..] == acts[i + 1..];
        ok, mark' := Perform(acts[i], s, p, mark');
        if !ok {
          return;
        }
        i := i + 1;
      }
    }
  }

  /** The text since the mark. */
  ghost function Marked(s: seq<byte>, mark: Option<nat>, p: nat): Option<seq<byte>>
    requires p <= |s| && (mark.Some? ==> mark.value <= p)
  {
    if mark.Some? then Some(s[mark.value..p]) else None
  }

  /** atoi: reads digits from `from` on, as long as there are any. */
  method AtoiFrom(s: seq<byte>, from: nat) returns (v: nat, end: nat)
    requires from <= |s|
    ensures from <= end <= |s| && (forall i | from <= i < end :: IsDigit(s[i])) && (end < |s| ==> !IsDigit(s[end]))
    ensures (forall i | 0 <= i < end - from :: IsDigit(s[from..end][i])) && v == Spec.Atoi(s[from..end])
  {
    v, end := 0, from;
    while end < |s| && IsDigit(s[end])
      invariant from <= end <= |s| && forall i | from <= i < end :: IsDigit(s[i])
      invariant (forall i | 0 <= i < end - from :: IsDigit(s[from..end][i])) && v == Spec.Atoi(s[from..end])
    {
      var d: int := s[end];
      assert s[from..end + 1][..end - from] == s[from..end];
      v := 10 * v + (d - 48);
      end := end + 1;
    }
  }

  /** The number between the mark and `p`, where no digit follows; none when it exceeds an int. */
  method PortAt(s: seq<byte>, from: nat, p: nat) returns (ok: bool, v: nat)
    requires from < p <= |s| && (p == |s| || !IsDigit(s[p]))
    ensures ok <==> (forall i | 0 <= i < p - from :: IsDigit(s[from..p][i])) && Spec.Atoi(s[from..p]) <= Spec.MAX_INT
    ensures ok ==> v == Spec.Atoi(s[from..p])
  {
    var end;
    v, end := AtoiFrom(s, from);
    if end != p {
      assert end < p && s[from..p][end - from] == s[end];
      return false, v;
    }
    ok := v <= Spec.MAX_INT;
  }

  /** A port is set only where no digit follows. */
  lemma PortEnds(cs: nat, b: byte)
    requires Spec.Table(cs, b).Move? && Spec.SetPort in Spec.Table(cs, b).acts
    ensures !IsDigit(b)
  {
  }

  method Create(s: seq<byte>) returns (uri: Uri, outcome: Outcome)
    ensures fresh(uri)
    ensures Spec.Parse(s) == match outcome
                             case Created => Spec.Accepted(uri.Value())
                             case NullPointer => Spec.Rejected
                             case Undefined => Spec.Undefined
                             case Unmodelled => Spec.Unmodelled
  {
    uri := new Uri();
    var p: nat, cs: nat, mark: Option<nat> := 0, 451, None;
    assert s[0..] == s;
    while p < |s|
      invariant p <= |s| && (mark.Some? ==> mark.value <= p) && fresh(uri)
      invariant Spec.Parse(s) == Spec.Run(s[p..], cs, Marked(s, mark, p), uri.Value())
    {
      var move := Spec.Table(cs, s[p]);
      assert s[p..][0] == s[p] && s[p..][1..] == s[p + 1..];
      if move.Off? {
        return uri, Unmodelled;
      }
      if move.to == 0 {
        return uri, NullPointer;
      }
      if Spec.SetPort in move.acts {
        PortEnds(cs, s[p]);
      }
      var ok;
      ok, mark := uri.PerformAll(move.acts, s, p, mark);
      if !ok {
        return uri, Undefined;
      }
      assert mark.Some? ==> s[mark.value..p + 1] == s[mark.value..p] + [s[p]];
      cs := move.to;
      p := p + 1;
    }
    assert s[p..] == [];
    var ok;
    ok, mark := uri.PerformAll(Spec.AtEnd(cs), s, p, mark);
    outcome := if !ok then Undefined else if cs >= 451 then Created else NullPointer;
  }
}

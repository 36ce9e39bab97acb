/** Parse after print: printing a well-formed Uri and parsing the text gives the Uri back. */
module UriRoundTrip {
  import opened Basics
  import opened UriSpec

  // ---------- well-formed Uris ----------

  datatype Class = Name | Password | Path | Query

  predicate In(c: Class, b: byte) {
    match c
    case Name => NameChar(b)
    case Password => PasswordChar(b)
    case Path => PathChar(b)
    case Query => QueryChar(b)
  }

  predicate Percent(s: seq<byte>) {
    |s| >= 3 && s[0] == PERCENT && IsHex(s[1]) && IsHex(s[2])
  }

  /** Characters of the class and percent-encoded bytes. */
  predicate Text(c: Class, s: seq<byte>) {
    if s == [] then true
    else if In(c, s[0]) then Text(c, s[1..])
    else Percent(s) && Text(c, s[3..])
  }

  /** Begins with a letter or with another character that does not lead into address literals. */
  predicate Starts(s: seq<byte>) {
    s != [] && !IsDigit(s[0])
  }

  function Colon(s: seq<byte>): (i: nat)
    ensures i <= |s| && (i < |s| ==> s[i] == COLON) && forall j | 0 <= j < i :: s[j] != COLON
  {
    if s == [] || s[0] == COLON then 0 else 1 + Colon(s[1..])
  }

  /** A name, and after the first colon a password. */
  predicate UserOk(s: seq<byte>) {
    s == [] || (Starts(s) && Text(Name, s[..Colon(s)]) && Colon(s) > 0
                && (Colon(s) < |s| ==> Text(Password, s[Colon(s) + 1..])))
  }

  predicate SchemeOk(s: seq<byte>) {
    s != [] && IsAlpha(s[0]) && forall i | 0 <= i < |s| :: SchemeChar(s[i])
  }

  predicate WellFormed(u: Uri) {
    && SchemeOk(u.scheme) && UserOk(u.userinfo) && u.port <= MAX_INT
    && (u.host == [] || (Starts(u.host) && Text(Name, u.host)))
    && (u.path == [] || (u.path[0] == SLASH && Text(Path, u.path)))
    && Text(Query, u.query) && Text(Query, u.fragment)
  }

  /** A digit comes right after the first colon of the user info. */
  predicate DigitAfterColon(s: seq<byte>) {
    Colon(s) + 1 < |s| && IsDigit(s[Colon(s) + 1])
  }

  /** The user info that survives: a digit right after the first colon moves the mark there. */
  function Kept(s: seq<byte>): seq<byte> {
    if DigitAfterColon(s) then s[Colon(s) + 1..] else s
  }

  lemma KeptExact(s: seq<byte>)
    ensures Kept(s) == s <==> !DigitAfterColon(s)
  {
    if DigitAfterColon(s) {
      assert |Kept(s)| < |s|;
    }
  }

  // ---------- single steps ----------

  lemma Step(b: byte, rest: seq<byte>, cs: nat, acc: Option<seq<byte>>, u: Uri)
    requires Table(cs, b).Move? && Table(cs, b).to != 0 && DoAll(Table(cs, b).acts, acc, u).Some?
    ensures var m := Table(cs, b);
            var d := DoAll(m.acts, acc, u).value;
            Run([b] + rest, cs, acc, u) == Run(rest, m.to, Grow(d.0, b), d.1)
  {
    var s := [b] + rest;
    assert s[0] == b && s[1..] == rest;
  }

  lemma Acts1(a: Prim, acc: Option<seq<byte>>, u: Uri)
    ensures DoAll([a], acc, u) == Do(a, acc, u)
    ensures DoAll([], acc, u) == Some((acc, u))
  {
    assert [a][1..] == [];
  }

  lemma Acts2(a: Prim, b: Prim, acc: Option<seq<byte>>, u: Uri)
    ensures DoAll([a, b], acc, u)
         == (match Do(a, acc, u) case None => None case Some((acc', u')) => Do(b, acc', u'))
  {
    assert [a, b][1..] == [b];
    if Do(a, acc, u).Some? {
      Acts1(b, Do(a, acc, u).value.0, Do(a, acc, u).value.1);
    }
  }

  /** The text since the mark, if there is one, with more behind it. */
  function Longer(acc: Option<seq<byte>>, s: seq<byte>): Option<seq<byte>> {
    if acc.Some? then Some(acc.value + s) else None
  }

  /** A step without actions. */
  lemma Silent(b: byte, rest: seq<byte>, cs: nat, to: nat, acc: Option<seq<byte>>, u: Uri)
    requires Table(cs, b) == Move([], to) && to != 0
    ensures Run([b] + rest, cs, acc, u) == Run(rest, to, Longer(acc, [b]), u)
  {
    Step(b, rest, cs, acc, u);
  }

  // ---------- loops ----------

  /** The state where a text of the class is read, and those inside a percent-encoded byte. */
  predicate Loops(cs: nat, first: nat, second: nat, c: Class) {
    || (cs == 520 && first == 253 && second == 254 && c == Name)
    || (cs == 255 && first == 256 && second == 257 && c == Password)
    || (cs == 523 && first == 258 && second == 259 && c == Name)
    || (cs == 513 && first == 243 && second == 244 && c == Path)
    || (cs == 457 && first == 7 && second == 8 && c == Query)
    || (cs == 454 && first == 1 && second == 2 && c == Query)
  }

  lemma LoopChar(cs: nat, first: nat, second: nat, c: Class, b: byte)
    requires Loops(cs, first, second, c)
    ensures In(c, b) ==> Table(cs, b) == Move([], cs)
    ensures b == PERCENT ==> Table(cs, b) == Move([], first)
    ensures IsHex(b) ==> Table(first, b) == Move([], second) && Table(second, b) == Move([], cs)
  {
  }

  lemma Split1(s: seq<byte>, rest: seq<byte>)
    requires s != []
    ensures s + rest == [s[0]] + (s[1..] + rest)
  {
  }

  lemma Joined(acc: seq<byte>, s: seq<byte>)
    requires s != []
    ensures acc + [s[0]] + s[1..] == acc + s
  {
  }

  lemma LongerTwice(acc: Option<seq<byte>>, a: seq<byte>, b: seq<byte>)
    ensures Longer(Longer(acc, a), b) == Longer(acc, a + b)
  {
    if acc.Some? {
      assert acc.value + a + b == acc.value + (a + b);
    }
  }

  /** From inside a percent-encoded byte back to the loop. */
  lemma PercentTail(s: seq<byte>, rest: seq<byte>, cs: nat, first: nat, second: nat, c: Class,
                    acc: Option<seq<byte>>, u: Uri)
    requires Loops(cs, first, second, c) && |s| >= 2 && IsHex(s[0]) && IsHex(s[1])
    ensures Run(s + rest, first, acc, u) == Run(s[2..] + rest, cs, Longer(acc, s[..2]), u)
  {
    LoopChar(cs, first, second, c, s[0]);
    LoopChar(cs, first, second, c, s[1]);
    Split1(s, rest);
    Silent(s[0], s[1..] + rest, first, second, acc, u);
    Split1(s[1..], rest);
    assert s[1..][1..] == s[2..];
    Silent(s[1], s[2..] + rest, second, cs, Longer(acc, [s[0]]), u);
    LongerTwice(acc, [s[0]], [s[1]]);
    assert [s[0]] + [s[1]] == s[..2];
  }

  lemma {:induction false} LoopText(s: seq<byte>, rest: seq<byte>, cs: nat, first: nat, second: nat, c: Class,
                                    acc: Option<seq<byte>>, u: Uri)
    requires Loops(cs, first, second, c) && Text(c, s)
    ensures Run(s + rest, cs, acc, u) == Run(rest, cs, Longer(acc, s), u)
    decreases |s|
  {
    if s == [] {
      assert s + rest == rest && (acc.Some? ==> acc.value + s == acc.value);
    } else {
      LoopChar(cs, first, second, c, s[0]);
      Split1(s, rest);
      if In(c, s[0]) {
        Silent(s[0], s[1..] + rest, cs, cs, acc, u);
        LoopText(s[1..], rest, cs, first, second, c, Longer(acc, [s[0]]), u);
        LongerTwice(acc, [s[0]], s[1..]);
        assert [s[0]] + s[1..] == s;
      } else {
        Silent(s[0], s[1..] + rest, cs, first, acc, u);
        PercentLoop(s, rest, cs, first, second, c, acc, u);
        LoopText(s[3..], rest, cs, first, second, c, Longer(acc, s[..3]), u);
        LongerTwice(acc, s[..3], s[3..]);
        assert s[..3] + s[3..] == s;
      }
    }
  }

  /** Past the rest of a percent-encoded byte. */
  lemma PercentLoop(s: seq<byte>, rest: seq<byte>, cs: nat, first: nat, second: nat, c: Class,
                    acc: Option<seq<byte>>, u: Uri)
    requires Loops(cs, first, second, c) && Percent(s)
    ensures Run(s[1..] + rest, first, Longer(acc, [s[0]]), u) == Run(s[3..] + rest, cs, Longer(acc, s[..3]), u)
  {
    PercentTail(s[1..], rest, cs, first, second, c, Longer(acc, [s[0]]), u);
    assert s[1..][2..] == s[3..];
    LongerTwice(acc, [s[0]], s[1..][..2]);
    assert [s[0]] + s[1..][..2] == s[..3];
  }

  /** A state before a text, from where its first character sets the mark. */
  predicate Enters(from: nat, cs: nat, c: Class) {
    || (from == 511 && cs == 520 && c == Name)
    || (from == 522 && cs == 523 && c == Name)
    || (from == 456 && cs == 457 && c == Query)
    || (from == 453 && cs == 454 && c == Query)
  }

  lemma EnterChar(from: nat, cs: nat, first: nat, second: nat, c: Class, b: byte)
    requires Enters(from, cs, c) && Loops(cs, first, second, c) && (c == Name ==> !IsDigit(b))
    ensures In(c, b) ==> Table(from, b) == Move([Mark], cs)
    ensures b == PERCENT ==> Table(from, b) == Move([Mark], first)
  {
  }

  lemma EnterText(s: seq<byte>, rest: seq<byte>, from: nat, cs: nat, first: nat, second: nat, c: Class,
                  acc: Option<seq<byte>>, u: Uri)
    requires Enters(from, cs, c) && Loops(cs, first, second, c) && Text(c, s) && s != [] && (c == Name ==> Starts(s))
    ensures Run(s + rest, from, acc, u) == Run(rest, cs, Some(s), u)
  {
    EnterChar(from, cs, first, second, c, s[0]);
    Split1(s, rest);
    Acts1(Mark, acc, u);
    Step(s[0], s[1..] + rest, from, acc, u);
    assert [] + [s[0]] == [s[0]];
    if In(c, s[0]) {
      LoopText(s[1..], rest, cs, first, second, c, Some([s[0]]), u);
      assert [s[0]] + s[1..] == s;
    } else {
      assert [] + [s[0]] == [s[0]] && [] + s[..3] == s[..3];
      PercentLoop(s, rest, cs, first, second, c, Some([]), u);
      LoopText(s[3..], rest, cs, first, second, c, Some(s[..3]), u);
      assert s[..3] + s[3..] == s;
    }
  }

  // ---------- from the end ----------

  function QueryText(q: seq<byte>, shown: bool): seq<byte> {
    if q == [] && !shown then [] else [QUESTION] + q
  }

  function HashText(f: seq<byte>, shown: bool): seq<byte> {
    if f == [] && !shown then [] else [NUMBER] + f
  }

  lemma FragmentRun(f: seq<byte>, acc: Option<seq<byte>>, u: Uri)
    requires Text(Query, f)
    ensures Run(f, 453, acc, u) == Accepted(u.(fragment := f))
  {
    if f == [] {
      Acts2(Mark, SetFragment, acc, u);
    } else {
      EnterText(f, [], 453, 454, 1, 2, Query, acc, u);
      assert f + [] == f;
      Acts1(SetFragment, Some(f), u);
    }
  }

  /** A query is left at '#' or at the end, and then set. */
  lemma HashRun(f: seq<byte>, shown: bool, cs: nat, acc: Option<seq<byte>>, u: Uri, u': Uri)
    requires Text(Query, f) && u'.fragment == [] && (cs == 456 || cs == 457)
    requires DoAll(AtEnd(cs), acc, u).Some? && DoAll(AtEnd(cs), acc, u).value.1 == u'
    ensures Run(HashText(f, shown), cs, acc, u) == Accepted(u'.(fragment := f))
  {
    if HashText(f, shown) != [] {
      Step(NUMBER, f, cs, acc, u);
      FragmentRun(f, Grow(DoAll(AtEnd(cs), acc, u).value.0, NUMBER), u');
    }
  }

  lemma QueryRun(q: seq<byte>, f: seq<byte>, shown: bool, acc: Option<seq<byte>>, u: Uri)
    requires Text(Query, q) && Text(Query, f) && u.fragment == []
    ensures Run(q + HashText(f, shown), 456, acc, u) == Accepted(u.(query := q, fragment := f))
  {
    if q == [] {
      assert q + HashText(f, shown) == HashText(f, shown);
      Acts2(Mark, SetQuery, acc, u);
      HashRun(f, shown, 456, acc, u, u.(query := []));
    } else {
      EnterText(q, HashText(f, shown), 456, 457, 7, 8, Query, acc, u);
      Acts1(SetQuery, Some(q), u);
      HashRun(f, shown, 457, Some(q), u, u.(query := q));
    }
  }

  /** Leaving the state at '?', at '#' or at the end sets the fields, those before the query, to those of `u'`. */
  predicate Leaves(cs: nat, acc: Option<seq<byte>>, u: Uri, u': Uri) {
    && cs >= 451 && Table(cs, QUESTION) == Move(AtEnd(cs), 456) && Table(cs, NUMBER) == Move(AtEnd(cs), 453)
    && DoAll(AtEnd(cs), acc, u).Some? && DoAll(AtEnd(cs), acc, u).value.1 == u' && u'.query == u'.fragment == []
  }

  lemma LeaveRun(q: seq<byte>, f: seq<byte>, form: Form, cs: nat, acc: Option<seq<byte>>, u: Uri, u': Uri)
    requires Text(Query, q) && Text(Query, f) && Leaves(cs, acc, u, u')
    ensures Run(QueryText(q, form.query) + HashText(f, form.fragment), cs, acc, u)
         == Accepted(u'.(query := q, fragment := f))
  {
    var hash, d := HashText(f, form.fragment), DoAll(AtEnd(cs), acc, u).value.0;
    if QueryText(q, form.query) != [] {
      assert [QUESTION] + q + hash == [QUESTION] + (q + hash);
      Step(QUESTION, q + hash, cs, acc, u);
      QueryRun(q, f, form.fragment, Grow(d, QUESTION), u');
    } else {
      assert QueryText(q, form.query) + hash == hash;
      if hash != [] {
        Step(NUMBER, f, cs, acc, u);
        FragmentRun(f, Grow(d, NUMBER), u');
      }
    }
  }

  /** A path is read to its end and set. */
  lemma PathRun(p: seq<byte>, q: seq<byte>, f: seq<byte>, form: Form, u: Uri)
    requires Text(Path, p) && Text(Query, q) && Text(Query, f) && u.query == u.fragment == []
    ensures Run(p + (QueryText(q, form.query) + HashText(f, form.fragment)), 513, Some([SLASH]), u)
         == Accepted(u.(path := [SLASH] + p, query := q, fragment := f))
  {
    var rest := QueryText(q, form.query) + HashText(f, form.fragment);
    LoopText(p, rest, 513, 243, 244, Path, Some([SLASH]), u);
    Acts1(SetPath, Some([SLASH] + p), u);
    LeaveRun(q, f, form, 513, Some([SLASH] + p), u, u.(path := [SLASH] + p));
  }

  // ---------- host and port ----------

  /** How a port is written: not at all, as a colon without digits, or as a number. */
  datatype PortForm = NoPort | NoDigits | Digits

  /** How a Uri is written: its port, and whether the marks of an empty query and fragment are. */
  datatype Form = Form(port: PortForm, query: bool, fragment: bool)

  function PortText(v: Uri, port: PortForm): seq<byte> {
    match port
    case NoPort => []
    case NoDigits => [COLON]
    case Digits => [COLON] + Decimal(v.port)
  }

  /** The path, empty or not, the query and the fragment. */
  function Tail(v: Uri, form: Form): seq<byte> {
    v.path + (QueryText(v.query, form.query) + HashText(v.fragment, form.fragment))
  }

  function HostText(v: Uri, form: Form): seq<byte> {
    v.host + (PortText(v, form.port) + Tail(v, form))
  }

  function UserText(v: Uri): seq<byte> {
    if v.userinfo == [] then [] else v.userinfo + [AT]
  }

  /** The text of a Uri. */
  function Written(v: Uri, form: Form): seq<byte> {
    v.scheme + [COLON, SLASH, SLASH] + UserText(v) + v.host + PortText(v, form.port) + Tail(v, form)
  }

  /** Leaving the state at a slash, too, sets the fields to those of `u'`, up to the path, and marks the path. */
  predicate LeavesAtSlash(cs: nat, acc: Option<seq<byte>>, u: Uri, u': Uri) {
    && Leaves(cs, acc, u, u') && u'.path == []
    && var m := Table(cs, SLASH);
       && m.Move? && m.to == 513
       && match DoAll(m.acts, acc, u)
          case Some((acc', u1)) => acc' == Some([]) && u1.(path := []) == u'
          case None => false
  }

  /** The tail of a Uri, from a state that its authority leads to. */
  lemma TailRun(v: Uri, form: Form, cs: nat, acc: Option<seq<byte>>, u: Uri, u': Uri)
    requires WellFormed(v) && LeavesAtSlash(cs, acc, u, u')
    ensures Run(Tail(v, form), cs, acc, u) == Accepted(u'.(path := v.path, query := v.query, fragment := v.fragment))
  {
    var rest := QueryText(v.query, form.query) + HashText(v.fragment, form.fragment);
    if v.path == [] {
      assert Tail(v, form) == rest;
      LeaveRun(v.query, v.fragment, form, cs, acc, u, u');
    } else {
      var p, u1 := v.path[1..], DoAll(Table(cs, SLASH).acts, acc, u).value.1;
      assert v.path == [SLASH] + p;
      assert Tail(v, form) == [SLASH] + (p + rest);
      Step(SLASH, p + rest, cs, acc, u);
      assert [] + [SLASH] == [SLASH];
      PathRun(p, v.query, v.fragment, form, u1);
    }
  }

  /** Where a host without and with user info is read, what follows its colon, and where the port is read. */
  predicate Hosts(cs: nat, colon: nat, digits: nat) {
    (cs == 520 && colon == 521 && digits == 542) || (cs == 523 && colon == 514 && digits == 515)
  }

  lemma {:induction false} DigitsRun(s: seq<byte>, rest: seq<byte>, digits: nat, acc: seq<byte>, u: Uri)
    requires (digits == 542 || digits == 515) && forall i | 0 <= i < |s| :: IsDigit(s[i])
    ensures Run(s + rest, digits, Some(acc), u) == Run(rest, digits, Some(acc + s), u)
    decreases |s|
  {
    if s == [] {
      assert s + rest == rest && acc + s == acc;
    } else {
      Split1(s, rest);
      assert IsDigit(s[0]);
      Silent(s[0], s[1..] + rest, digits, digits, Some(acc), u);
      DigitsRun(s[1..], rest, digits, acc + [s[0]], u);
      Joined(acc, s);
    }
  }

  /** A number sets the mark at its first digit. */
  lemma NumberRun(d: seq<byte>, rest: seq<byte>, colon: nat, digits: nat, acc: Option<seq<byte>>, u: Uri)
    requires (colon == 521 && digits == 542) || (colon == 514 && digits == 515)
    requires d != [] && forall i | 0 <= i < |d| :: IsDigit(d[i])
    ensures Run(d + rest, colon, acc, u) == Run(rest, digits, Some(d), u)
  {
    Split1(d, rest);
    assert IsDigit(d[0]);
    Acts1(Mark, acc, u);
    Step(d[0], d[1..] + rest, colon, acc, u);
    assert [] + [d[0]] == [d[0]];
    DigitsRun(d[1..], rest, digits, [d[0]], u);
    assert [d[0]] + d[1..] == d;
  }

  lemma PortLeaves(port: nat, digits: nat, u: Uri)
    requires port <= MAX_INT && (digits == 542 || digits == 515) && u.path == u.query == u.fragment == []
    ensures LeavesAtSlash(digits, Some(Decimal(port)), u, u.(port := port))
  {
    var d, u1 := Decimal(port), u.(port := port);
    AtoiDecimal(port);
    Acts2(SetPort, Mark, Some(d), u);
    Acts3(SetPort, Mark, SetPath, Some(d), u);
    Acts2(Mark, SetPath, None, u1);
    assert u1.(path := []) == u1;
  }

  lemma HostLeaves(cs: nat, host: seq<byte>, u: Uri)
    requires (cs == 520 || cs == 523) && u.path == u.query == u.fragment == []
    ensures LeavesAtSlash(cs, Some(host), u, u.(host := host))
  {
    var u1 := u.(host := host);
    Acts2(SetHost, Mark, Some(host), u);
    Acts3(SetHost, Mark, SetPath, Some(host), u);
    Acts2(Mark, SetPath, Some(host), u1);
    assert u1.(path := []) == u1;
  }

  lemma EmptyLeaves(cs: nat, acc: Option<seq<byte>>, u: Uri)
    requires (cs == 511 || cs == 522) && u.path == u.query == u.fragment == []
    ensures LeavesAtSlash(cs, acc, u, u.(host := []))
  {
    var u1 := u.(host := []);
    Acts2(Mark, SetHost, acc, u);
    Acts3(Mark, SetHost, SetPath, acc, u);
    Acts2(SetHost, SetPath, Some([]), u);
    assert u1.(path := []) == u1;
  }

  /** After the number, the tail. */
  lemma PortEnd(v: Uri, form: Form, digits: nat, u: Uri)
    requires WellFormed(v) && (digits == 542 || digits == 515) && u.path == u.query == u.fragment == []
    ensures Run(Tail(v, form), digits, Some(Decimal(v.port)), u)
         == Accepted(u.(port := v.port, path := v.path, query := v.query, fragment := v.fragment))
  {
    PortLeaves(v.port, digits, u);
    TailRun(v, form, digits, Some(Decimal(v.port)), u, u.(port := v.port));
  }

  lemma Acts3(a: Prim, b: Prim, c: Prim, acc: Option<seq<byte>>, u: Uri)
    ensures DoAll([a, b, c], acc, u)
         == (match Do(a, acc, u) case None => None case Some((acc', u')) => DoAll([b, c], acc', u'))
  {
    assert [a, b, c][1..] == [b, c];
  }

  /** What the parser makes of a Uri as it is written. */
  function Parsed(v: Uri, port: PortForm): Uri {
    v.(userinfo := Kept(v.userinfo), port := if port.Digits? then v.port else 0)
  }

  /** From the colon of the port on: without digits, the mark of the path is lost, and it is used. */
  lemma ColonPort(v: Uri, form: Form, colon: nat, digits: nat, acc: Option<seq<byte>>, u: Uri)
    requires WellFormed(v) && ((colon == 521 && digits == 542) || (colon == 514 && digits == 515))
    requires form.port != NoPort && u.path == u.query == u.fragment == []
    ensures Run(PortText(v, form.port)[1..] + Tail(v, form), colon, acc, u)
         == if form.port.NoDigits? then Undefined
            else Accepted(u.(port := v.port, path := v.path, query := v.query, fragment := v.fragment))
  {
    if form.port.NoDigits? {
      assert PortText(v, form.port)[1..] + Tail(v, form) == Tail(v, form);
      NoDigitsRun(v, form, colon, acc, u);
    } else {
      assert PortText(v, form.port)[1..] == Decimal(v.port);
      NumberRun(Decimal(v.port), Tail(v, form), colon, digits, acc, u);
      PortEnd(v, form, digits, u);
    }
  }

  /** A colon without digits: at a slash the mark is lost, elsewhere the path is set from it. */
  lemma NoDigitsActs(acc: Option<seq<byte>>, u: Uri)
    ensures DoAll([Mark, SetPort], acc, u) == Some((None, u)) && DoAll([Mark, SetPort, SetPath], acc, u) == None
  {
    Acts2(Mark, SetPort, acc, u);
    Acts3(Mark, SetPort, SetPath, acc, u);
    Acts2(SetPort, SetPath, Some([]), u);
  }

  lemma NoDigitsRun(v: Uri, form: Form, colon: nat, acc: Option<seq<byte>>, u: Uri)
    requires WellFormed(v) && (colon == 521 || colon == 514)
    ensures Run(Tail(v, form), colon, acc, u) == Undefined
  {
    var rest := QueryText(v.query, form.query) + HashText(v.fragment, form.fragment);
    NoDigitsActs(acc, u);
    if v.path != [] {
      var p := v.path[1..];
      assert v.path == [SLASH] + p;
      assert Tail(v, form) == [SLASH] + (p + rest);
      Step(SLASH, p + rest, colon, acc, u);
      LoopText(p, rest, 513, 243, 244, Path, None, u);
      NoMark(rest, u);
    } else {
      assert Tail(v, form) == rest;
      NoDigitsLeave(rest, colon, acc, u);
    }
  }

  lemma NoDigitsLeave(s: seq<byte>, colon: nat, acc: Option<seq<byte>>, u: Uri)
    requires (colon == 521 || colon == 514) && (s != [] ==> s[0] == QUESTION || s[0] == NUMBER)
    ensures Run(s, colon, acc, u) == Undefined
  {
    NoDigitsActs(acc, u);
  }

  lemma NoMark(s: seq<byte>, u: Uri)
    requires s != [] ==> s[0] == QUESTION || s[0] == NUMBER
    ensures Run(s, 513, None, u) == Undefined
  {
    Acts1(SetPath, None, u);
  }

  /** From the host on, in the state `from`. */
  lemma HostRun(v: Uri, form: Form, from: nat, acc: Option<seq<byte>>, u: Uri)
    requires WellFormed(v) && (from == 511 || from == 522) && u.path == u.query == u.fragment == []
    requires u.port == 0 && u.scheme == v.scheme && u.userinfo == Kept(v.userinfo)
    ensures Run(HostText(v, form), from, acc, u)
         == if form.port.NoDigits? then Undefined else Accepted(Parsed(v, form.port))
  {
    var rest := PortText(v, form.port) + Tail(v, form);
    if v.host == [] {
      assert HostText(v, form) == rest;
      EmptyHostRun(v, form, from, acc, u);
    } else {
      var cs, first, second := if from == 511 then 520 else 523, if from == 511 then 253 else 258,
                               if from == 511 then 254 else 259;
      EnterText(v.host, rest, from, cs, first, second, Name, acc, u);
      SomeHostRun(v, form, cs, if from == 511 then 521 else 514, if from == 511 then 542 else 515, u);
    }
  }

  /** From the end of a host that is not empty. */
  lemma SomeHostRun(v: Uri, form: Form, cs: nat, colon: nat, digits: nat, u: Uri)
    requires WellFormed(v) && Hosts(cs, colon, digits) && u.path == u.query == u.fragment == []
    requires u.port == 0 && u.scheme == v.scheme && u.userinfo == Kept(v.userinfo)
    ensures Run(PortText(v, form.port) + Tail(v, form), cs, Some(v.host), u)
         == if form.port.NoDigits? then Undefined else Accepted(Parsed(v, form.port))
  {
    var u1, t := u.(host := v.host), PortText(v, form.port) + Tail(v, form);
    if form.port.NoPort? {
      assert t == Tail(v, form);
      HostLeaves(cs, v.host, u);
      TailRun(v, form, cs, Some(v.host), u, u1);
    } else {
      Acts1(SetHost, Some(v.host), u);
      ColonFirst(v, form);
      Step(COLON, t[1..], cs, Some(v.host), u);
      ColonPort(v, form, colon, digits, Some(v.host + [COLON]), u1);
    }
  }

  lemma ColonFirst(v: Uri, form: Form)
    requires form.port != NoPort
    ensures var t := PortText(v, form.port) + Tail(v, form);
            t != [] && t == [COLON] + t[1..] && t[1..] == PortText(v, form.port)[1..] + Tail(v, form)
  {
  }

  /** An empty host is set where the next part begins. */
  lemma EmptyHostRun(v: Uri, form: Form, from: nat, acc: Option<seq<byte>>, u: Uri)
    requires WellFormed(v) && (from == 511 || from == 522) && u.path == u.query == u.fragment == []
    requires u.port == 0 && u.scheme == v.scheme && u.userinfo == Kept(v.userinfo) && v.host == []
    ensures Run(PortText(v, form.port) + Tail(v, form), from, acc, u)
         == if form.port.NoDigits? then Undefined else Accepted(Parsed(v, form.port))
  {
    var u1, t := u.(host := []), PortText(v, form.port) + Tail(v, form);
    if form.port.NoPort? {
      assert t == Tail(v, form);
      EmptyLeaves(from, acc, u);
      TailRun(v, form, from, acc, u, u1);
    } else {
      var colon := if from == 511 then 521 else 514;
      ColonFirst(v, form);
      EmptyHostColon(t[1..], from, colon, acc, u);
      ColonPort(v, form, colon, if from == 511 then 542 else 515, Some([COLON]), u1);
    }
  }

  lemma EmptyHostColon(rest: seq<byte>, from: nat, colon: nat, acc: Option<seq<byte>>, u: Uri)
    requires (from == 511 && colon == 521) || (from == 522 && colon == 514)
    ensures Run([COLON] + rest, from, acc, u) == Run(rest, colon, Some([COLON]), u.(host := []))
  {
    Acts2(Mark, SetHost, acc, u);
    Step(COLON, rest, from, acc, u);
    assert [] + [COLON] == [COLON];
  }

  // ---------- user info ----------

  /** '@' sets the user info to the text since the mark. */
  lemma AtRun(rest: seq<byte>, cs: nat, acc: seq<byte>, u: Uri)
    requires cs == 520 || cs == 521 || cs == 255 || cs == 542
    ensures Run([AT] + rest, cs, Some(acc), u) == Run(rest, 522, None, u.(userinfo := acc))
  {
    Acts1(SetUserinfo, Some(acc), u);
    Step(AT, rest, cs, Some(acc), u);
  }

  /** A password that began with a digit: the mark is at that digit. */
  lemma {:induction false} DigitPassword(s: seq<byte>, rest: seq<byte>, acc: seq<byte>, u: Uri)
    requires Text(Password, s)
    ensures Run(s + ([AT] + rest), 542, Some(acc), u) == Run(rest, 522, None, u.(userinfo := acc + s))
    decreases |s|
  {
    var more := [AT] + rest;
    if s == [] {
      assert s + more == more && acc + s == acc;
      AtRun(rest, 542, acc, u);
    } else {
      Split1(s, more);
      if IsDigit(s[0]) {
        Silent(s[0], s[1..] + more, 542, 542, Some(acc), u);
        DigitPassword(s[1..], rest, acc + [s[0]], u);
        Joined(acc, s);
      } else {
        PasswordFrom(s, more, 542, acc, u);
        AtRun(rest, 255, acc + s, u);
      }
    }
  }

  /** A password, or the rest of one, that does not begin with a digit. */
  lemma PasswordFrom(s: seq<byte>, rest: seq<byte>, from: nat, acc: seq<byte>, u: Uri)
    requires Text(Password, s) && s != [] && !IsDigit(s[0]) && (from == 521 || from == 542)
    ensures Run(s + rest, from, Some(acc), u) == Run(rest, 255, Some(acc + s), u)
  {
    Split1(s, rest);
    if PasswordChar(s[0]) {
      Silent(s[0], s[1..] + rest, from, 255, Some(acc), u);
      LoopText(s[1..], rest, 255, 256, 257, Password, Some(acc + [s[0]]), u);
      Joined(acc, s);
    } else {
      Silent(s[0], s[1..] + rest, from, 256, Some(acc), u);
      PercentLoop(s, rest, 255, 256, 257, Password, Some(acc), u);
      LoopText(s[3..], rest, 255, 256, 257, Password, Some(acc + s[..3]), u);
      Thirds(acc, s);
    }
  }

  lemma Thirds(acc: seq<byte>, s: seq<byte>)
    requires |s| >= 3
    ensures acc + s[..3] + s[3..] == acc + s
  {
  }

  /** What comes after the colon of the user info: the mark moves when it is a digit. */
  lemma PasswordRun(w: seq<byte>, rest: seq<byte>, acc: seq<byte>, u: Uri)
    requires Text(Password, w)
    ensures Run(w + ([AT] + rest), 521, Some(acc), u)
         == Run(rest, 522, None, u.(userinfo := if w != [] && IsDigit(w[0]) then w else acc + w))
  {
    var more := [AT] + rest;
    if w == [] {
      assert w + more == more && acc + w == acc;
      AtRun(rest, 521, acc, u);
    } else if IsDigit(w[0]) {
      Split1(w, more);
      Acts1(Mark, Some(acc), u);
      Step(w[0], w[1..] + more, 521, Some(acc), u);
      assert [] + [w[0]] == [w[0]];
      DigitPassword(w[1..], rest, [w[0]], u);
      assert [w[0]] + w[1..] == w;
    } else {
      PasswordFrom(w, more, 521, acc, u);
      AtRun(rest, 255, acc + w, u);
    }
  }

  lemma UserRun(s: seq<byte>, rest: seq<byte>, acc: Option<seq<byte>>, u: Uri)
    requires UserOk(s) && s != []
    ensures exists host ::
              Run(s + ([AT] + rest), 511, acc, u) == Run(rest, 522, None, u.(userinfo := Kept(s), host := host))
  {
    var i, more := Colon(s), [AT] + rest;
    var name := s[..i];
    if i == |s| {
      assert name == s;
      EnterText(s, more, 511, 520, 253, 254, Name, acc, u);
      AtRun(rest, 520, s, u);
      assert u.(userinfo := Kept(s)) == u.(userinfo := Kept(s), host := u.host);
    } else {
      var w := s[i + 1..];
      assert s + more == name + ([COLON] + (w + more));
      EnterText(name, [COLON] + (w + more), 511, 520, 253, 254, Name, acc, u);
      ColonRun(s, name, w, rest, u);
    }
  }

  /** From the colon of the user info on: the text before it is first taken for the host. */
  lemma ColonRun(s: seq<byte>, name: seq<byte>, w: seq<byte>, rest: seq<byte>, u: Uri)
    requires Text(Password, w) && Colon(s) < |s| && name == s[..Colon(s)] && w == s[Colon(s) + 1..]
    ensures Run([COLON] + (w + ([AT] + rest)), 520, Some(name), u)
         == Run(rest, 522, None, u.(userinfo := Kept(s), host := name))
  {
    var u1 := u.(host := name);
    Acts1(SetHost, Some(name), u);
    Step(COLON, w + ([AT] + rest), 520, Some(name), u);
    PasswordRun(w, rest, name + [COLON], u1);
    KeptParts(s, Colon(s));
  }

  lemma KeptParts(s: seq<byte>, i: nat)
    requires i < |s| && i == Colon(s)
    ensures s[..i] + [COLON] + s[i + 1..] == s
    ensures Kept(s) == if s[i + 1..] != [] && IsDigit(s[i + 1..][0]) then s[i + 1..] else s
  {
    Around(s, i);
    if i + 1 < |s| {
      assert s[i + 1..][0] == s[i + 1];
    }
  }

  lemma Around(s: seq<byte>, i: nat)
    requires i < |s|
    ensures s[..i] + [s[i]] + s[i + 1..] == s
  {
  }

  // ---------- scheme ----------

  lemma {:induction false} SchemeLoop(s: seq<byte>, rest: seq<byte>, acc: seq<byte>, u: Uri)
    requires forall i | 0 <= i < |s| :: SchemeChar(s[i])
    ensures Run(s + rest, 508, Some(acc), u) == Run(rest, 508, Some(acc + s), u)
    decreases |s|
  {
    if s == [] {
      assert s + rest == rest && acc + s == acc;
    } else {
      Split1(s, rest);
      assert SchemeChar(s[0]);
      Silent(s[0], s[1..] + rest, 508, 508, Some(acc), u);
      SchemeLoop(s[1..], rest, acc + [s[0]], u);
      Joined(acc, s);
    }
  }

  lemma SchemeRun(s: seq<byte>, rest: seq<byte>)
    requires SchemeOk(s)
    ensures Parse(s + ([COLON] + ([SLASH] + ([SLASH] + rest)))) == Run(rest, 511, None, EMPTY.(scheme := s))
  {
    var r2 := [SLASH] + rest;
    var r1 := [SLASH] + r2;
    var r0 := [COLON] + r1;
    var u := EMPTY.(scheme := s);
    Split1(s, r0);
    Acts1(Mark, None, EMPTY);
    Step(s[0], s[1..] + r0, 451, None, EMPTY);
    assert [] + [s[0]] == [s[0]];
    SchemeLoop(s[1..], r0, [s[0]], EMPTY);
    assert [s[0]] + s[1..] == s;
    Acts1(SetScheme, Some(s), EMPTY);
    Step(COLON, r1, 508, Some(s), EMPTY);
    Acts1(Mark, None, u);
    Step(SLASH, r2, 509, None, u);
    Step(SLASH, rest, 510, None, u);
  }

  // ---------- the theorem ----------

  /** Parsing inverts writing: for every well-formed Uri, its path empty or not, written with or without a port,
      and with or without the marks of an empty query and fragment, the parser accepts the text with these very
      fields; but a port without digits makes it use a null mark. */
  lemma ParseWritten(v: Uri, form: Form)
    requires WellFormed(v)
    ensures Parse(Written(v, form)) == if form.port.NoDigits? then Undefined else Accepted(Parsed(v, form.port))
  {
    Regroup(v.scheme, UserText(v), v.host, PortText(v, form.port), Tail(v, form));
    SchemeRun(v.scheme, UserText(v) + HostText(v, form));
    AuthorityRun(v, form);
  }

  lemma AuthorityRun(v: Uri, form: Form)
    requires WellFormed(v)
    ensures Run(UserText(v) + HostText(v, form), 511, None, EMPTY.(scheme := v.scheme))
         == if form.port.NoDigits? then Undefined else Accepted(Parsed(v, form.port))
  {
    var u, host := EMPTY.(scheme := v.scheme), HostText(v, form);
    if v.userinfo == [] {
      assert UserText(v) + host == host;
      HostRun(v, form, 511, None, u);
    } else {
      assert UserText(v) + host == v.userinfo + ([AT] + host);
      UserRun(v.userinfo, host, None, u);
      var h :| Run(v.userinfo + ([AT] + host), 511, None, u)
            == Run(host, 522, None, u.(userinfo := Kept(v.userinfo), host := h));
      HostRun(v, form, 522, None, u.(userinfo := Kept(v.userinfo), host := h));
    }
  }

  lemma Regroup(s: seq<byte>, u: seq<byte>, h: seq<byte>, p: seq<byte>, t: seq<byte>)
    ensures s + [COLON, SLASH, SLASH] + u + h + p + t == s + ([COLON] + ([SLASH] + ([SLASH] + (u + (h + (p + t))))))
  {
    assert s + [COLON, SLASH, SLASH] == s + ([COLON] + ([SLASH] + [SLASH]));
  }

  /** What is printed: an empty path as a slash, and no port that is the scheme's own. */
  lemma Printed(v: Uri)
    ensures v.ToString() == Written(v.(path := v.GetPath()), PrintForm(v))
  {
    assert v.Tail() == Tail(v.(path := v.GetPath()), PrintForm(v));
  }

  function PrintForm(v: Uri): Form {
    Form(if v.IsDefaultPort() then NoPort else Digits, false, false)
  }

  /** Parsing what was printed succeeds, with these fields. */
  lemma ParsePrinted(v: Uri)
    requires WellFormed(v)
    ensures Parse(v.ToString()) == Accepted(Parsed(v.(path := v.GetPath()), PrintForm(v).port))
  {
    var w := v.(path := v.GetPath());
    Printed(v);
    assert v.path == [] ==> w.path[1..] == [] && In(Path, SLASH);
    assert WellFormed(w);
    ParseWritten(w, PrintForm(v));
  }

  /** Parse after print: the Uri comes back with its scheme, host, port, path, query and fragment, default ports
      and empty paths normalised; and its user info comes back exactly when no digit follows its first colon. */
  lemma ParseAfterPrint(v: Uri)
    requires WellFormed(v)
    ensures var r := Parse(v.ToString());
            && r.Accepted?
            && r.uri.scheme == v.scheme && r.uri.host == v.host && r.uri.query == v.query
            && r.uri.fragment == v.fragment
            && r.uri.GetPort() == v.GetPort() && r.uri.GetPath() == v.GetPath()
            && (r.uri.userinfo == v.userinfo <==> !DigitAfterColon(v.userinfo))
  {
    ParsePrinted(v);
    KeptExact(v.userinfo);
  }

  /** A Uri written without a path keeps all else: host, port, query and fragment, with an empty path. */
  lemma ParseNoPath(v: Uri, form: Form)
    requires WellFormed(v) && v.path == [] && !form.port.NoDigits?
    ensures var r := Parse(Written(v, form));
            && r.Accepted?
            && r.uri.scheme == v.scheme && r.uri.host == v.host && r.uri.path == []
            && r.uri.query == v.query && r.uri.fragment == v.fragment
            && r.uri.port == if form.port.Digits? then v.port else 0
  {
    ParseWritten(v, form);
  }

  // ---------- what is accepted ----------

  /** Inside a percent-encoded byte: two digits are due, or one. */
  predicate Inside2(cs: nat) { cs == 253 || cs == 256 || cs == 258 || cs == 243 || cs == 7 || cs == 1 }
  predicate Inside1(cs: nat) { cs == 254 || cs == 257 || cs == 259 || cs == 244 || cs == 8 || cs == 2 }

  lemma Refuses(cs: nat, b: byte)
    requires Table(cs, b).Move? && Table(cs, b).to != 0
    ensures !Forbidden(b) && (b == PERCENT ==> Inside2(Table(cs, b).to))
    ensures Inside2(cs) ==> IsHex(b) && Inside1(Table(cs, b).to)
    ensures Inside1(cs) ==> IsHex(b)
  {
  }

  /** A byte of an accepted text is not a forbidden character; a percent sign comes with two hexadecimal digits. */
  predicate Clean(s: seq<byte>, i: nat)
    requires i < |s|
  {
    !Forbidden(s[i]) && (s[i] == PERCENT ==> i + 2 < |s| && IsHex(s[i + 1]) && IsHex(s[i + 2]))
  }

  lemma {:induction false} RunClean(s: seq<byte>, cs: nat, acc: Option<seq<byte>>, u: Uri)
    requires Run(s, cs, acc, u).Accepted?
    ensures forall i | 0 <= i < |s| :: Clean(s, i)
    ensures Inside2(cs) ==> |s| >= 2 && IsHex(s[0]) && IsHex(s[1])
    ensures Inside1(cs) ==> |s| >= 1 && IsHex(s[0])
    decreases |s|
  {
    if s != [] {
      var m := Table(cs, s[0]);
      Refuses(cs, s[0]);
      var d := DoAll(m.acts, acc, u).value;
      RunClean(s[1..], m.to, Grow(d.0, s[0]), d.1);
      forall i | 0 < i < |s| ensures Clean(s, i) {
        assert Clean(s[1..], i - 1);
      }
    }
  }

  /** No accepted text holds a control character, a space, a quote, a bracket or a stray percent sign. */
  lemma AcceptedIsClean(s: seq<byte>)
    requires Parse(s).Accepted?
    ensures forall i | 0 <= i < |s| :: Clean(s, i)
  {
    RunClean(s, 451, None, EMPTY);
  }

  lemma ShortUser()
    ensures var s: seq<byte> := [97, COLON, 49];
            UserOk(s) && DigitAfterColon(s) && Kept(s) == [49]
  {
    var s: seq<byte> := [97, COLON, 49];
    assert Colon(s) == 1 by {
      assert s[1..][0] == COLON;
    }
    assert s[..1] == [97] && s[2..] == [49];
    assert [97][1..] == [] && [49][1..] == [];
  }

  /** A Uri with the user info "a:1" is printed and parsed back with "1": as http://a:1@b is. */
  lemma DigitMovesMark(v: Uri)
    requires v.userinfo == [97, COLON, 49] && WellFormed(v)
    ensures Parse(v.ToString()).Accepted? && Parse(v.ToString()).uri.userinfo == [49]
    ensures WellFormed(Uri(HTTP, [97, COLON, 49], [98], 0, [], [], []))
  {
    ShortUser();
    ParsePrinted(v);
    assert [98][1..] == [];
  }
}

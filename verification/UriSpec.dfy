/** Uris: what the parser's automaton makes of a text, how a Uri is printed, and that parsing after printing
    gives the Uri back. */
module UriSpec {
  import opened Basics

  // ---------- the value of a Uri ----------

  datatype Uri = Uri(scheme: seq<byte>, userinfo: seq<byte>, host: seq<byte>, port: nat,
                     path: seq<byte>, query: seq<byte>, fragment: seq<byte>) {
    predicate Web() { scheme == HTTP || scheme == WS }
    predicate WebSecure() { scheme == HTTPS || scheme == WSS }

    predicate IsDefaultPort() {
      if port == 0 then true
      else if Web() then port == 80
      else if WebSecure() then port == 443
      else false
    }

    function GetPort(): nat {
      if port != 0 then port
      else if Web() then 80
      else if WebSecure() then 443
      else port
    }

    function GetPath(): seq<byte> {
      if path == [] then [SLASH] else path
    }

    /** dump. */
    function ToString(): seq<byte> {
      scheme + [COLON, SLASH, SLASH] + (if userinfo == [] then [] else userinfo + [AT]) + host
      + (if IsDefaultPort() then [] else [COLON] + Decimal(port)) + Tail()
    }

    function Tail(): seq<byte> {
      GetPath() + (if query == [] then [] else [QUESTION] + query) + Hash()
    }

    function Hash(): seq<byte> {
      if fragment == [] then [] else [NUMBER] + fragment
    }
  }

  const EMPTY := Uri([], [], [], 0, [], [], [])

  const NUMBER: byte := 35    // #
  const PERCENT: byte := 37
  const SLASH: byte := 47
  const COLON: byte := 58
  const QUESTION: byte := 63
  const AT: byte := 64

  const HTTP: seq<byte> := [104, 116, 116, 112]
  const HTTPS: seq<byte> := [104, 116, 116, 112, 115]
  const WS: seq<byte> := [119, 115]
  const WSS: seq<byte> := [119, 115, 115]

  function Decimal(n: nat): (s: seq<byte>)
    ensures s != [] && forall i | 0 <= i < |s| :: IsDigit(s[i])
  {
    if n < 10 then [48 + n] else Decimal(n / 10) + [48 + n % 10]
  }

  /** atoi of digits. */
  function Atoi(s: seq<byte>): nat
    requires forall i | 0 <= i < |s| :: IsDigit(s[i])
  {
    if s == [] then 0 else
      var last: int := s[|s| - 1];
      assert IsDigit(s[|s| - 1]);
      10 * Atoi(s[..|s| - 1]) + (last - 48)
  }

  lemma {:induction false} AtoiDecimal(n: nat)
    ensures Atoi(Decimal(n)) == n
  {
    if n >= 10 {
      AtoiDecimal(n / 10);
      var s := Decimal(n);
      assert s[..|s| - 1] == Decimal(n / 10);
    } else {
      assert Decimal(n)[..0] == [];
    }
  }

  // ---------- characters ----------

  predicate IsAlpha(b: byte) { 65 <= b <= 90 || 97 <= b <= 122 }

  /** Refused nearly everywhere. Characters from 128 on are negative in the source, and pass. */
  predicate Forbidden(b: byte) {
    b <= 32 || b == 34 || b == 60 || b == 62 || 91 <= b <= 94 || b == 96 || 123 <= b <= 125 || b == 127
  }

  predicate SchemeChar(b: byte) { IsAlpha(b) || IsDigit(b) || b == 43 || b == 45 || b == 46 }
  predicate PathChar(b: byte) { QueryChar(b) && b != QUESTION }
  predicate QueryChar(b: byte) { !Forbidden(b) && b != NUMBER && b != PERCENT }

  /** In a user name or a registered name; and in a password. */
  predicate NameChar(b: byte) {
    || IsAlpha(b) || b == 33 || b == 61 || b == 95 || b == 126
    || (36 <= b <= 59 && b != PERCENT && b != SLASH && b != COLON)
  }
  predicate StartChar(b: byte) { NameChar(b) && !IsDigit(b) }
  predicate PasswordChar(b: byte) { NameChar(b) || b == COLON }

  // ---------- the automaton ----------

  /** The actions the transitions are made of. */
  datatype Prim = Mark | SetScheme | SetUserinfo | SetHost | SetPort | SetPath | SetQuery | SetFragment

  /** A transition, to state 0 on an error; or a way into states that are not part of this model. */
  datatype Move = Move(acts: seq<Prim>, to: nat) | Off

  const ERROR := Move([], 0)

  function Hexed(b: byte, to: nat): Move {
    if IsHex(b) then Move([], to) else ERROR
  }

  /** The same transitions leave a name at '#', '/' and '?'. */
  function AfterName(b: byte): Move {
    if b == NUMBER then Move([SetHost, Mark, SetPath], 453)
    else if b == SLASH then Move([SetHost, Mark], 513)
    else if b == QUESTION then Move([SetHost, Mark, SetPath], 456)
    else ERROR
  }

  /** With an empty port, the path's mark is lost. */
  function AfterNoPort(b: byte): Move {
    if b == NUMBER then Move([Mark, SetPort, SetPath], 453)
    else if b == SLASH then Move([Mark, SetPort], 513)
    else if b == QUESTION then Move([Mark, SetPort, SetPath], 456)
    else ERROR
  }

  function AfterPort(b: byte): Move {
    if b == NUMBER then Move([SetPort, Mark, SetPath], 453)
    else if b == SLASH then Move([SetPort, Mark], 513)
    else if b == QUESTION then Move([SetPort, Mark, SetPath], 456)
    else ERROR
  }

  /** At the start of the authority, or of the host after '@' when `name` is 523. */
  function Authority(b: byte, name: nat, percent: nat, colon: nat): Move {
    if b == 2 || b == 91 || IsDigit(b) then Off
    else if StartChar(b) then Move([Mark], name)
    else if b == NUMBER then Move([Mark, SetHost, SetPath], 453)
    else if b == PERCENT then Move([Mark], percent)
    else if b == SLASH then Move([Mark, SetHost], 513)
    else if b == COLON then Move([Mark, SetHost], colon)
    else if b == QUESTION then Move([Mark, SetHost, SetPath], 456)
    else ERROR
  }

  /** After the scheme's colon, where the second and third character of "://" is due. */
  function Slashes(b: byte, to: nat): Move {
    if b == SLASH then Move([], to)
    else if b == NUMBER then Move([], 453)
    else if b == QUESTION then Move([], 456)
    else if Forbidden(b) then ERROR
    else Off
  }

  function Table(cs: nat, b: byte): Move {
    match cs
    case 451 =>
      if IsAlpha(b) then Move([Mark], 508)
      else if b == NUMBER then Move([], 453)
      else if b == QUESTION then Move([], 456)
      else if Forbidden(b) || b == COLON then ERROR
      else Off
    case 508 =>
      if SchemeChar(b) then Move([], 508)
      else if b == COLON then Move([SetScheme], 509)
      else if b == NUMBER then Move([], 453)
      else if b == QUESTION then Move([], 456)
      else if Forbidden(b) then ERROR
      else Off
    case 509 => Slashes(b, 510)
    case 510 => Slashes(b, 511)
    case 511 => if b == AT then Move([Mark, SetUserinfo], 522) else Authority(b, 520, 253, 521)
    case 520 =>
      if NameChar(b) then Move([], 520)
      else if b == PERCENT then Move([], 253)
      else if b == COLON then Move([SetHost], 521)
      else if b == AT then Move([SetUserinfo], 522)
      else AfterName(b)
    case 521 =>
      if IsDigit(b) then Move([Mark], 542)
      else if PasswordChar(b) then Move([], 255)
      else if b == PERCENT then Move([], 256)
      else if b == AT then Move([SetUserinfo], 522)
      else AfterNoPort(b)
    case 255 =>
      if PasswordChar(b) then Move([], 255)
      else if b == PERCENT then Move([], 256)
      else if b == AT then Move([SetUserinfo], 522)
      else ERROR
    case 542 =>
      if IsDigit(b) then Move([], 542)
      else if PasswordChar(b) then Move([], 255)
      else if b == PERCENT then Move([], 256)
      else if b == AT then Move([SetUserinfo], 522)
      else AfterPort(b)
    case 522 => Authority(b, 523, 258, 514)
    case 523 =>
      if NameChar(b) then Move([], 523)
      else if b == PERCENT then Move([], 258)
      else if b == COLON then Move([SetHost], 514)
      else AfterName(b)
    case 514 => if IsDigit(b) then Move([Mark], 515) else AfterNoPort(b)
    case 515 => if IsDigit(b) then Move([], 515) else AfterPort(b)
    case 513 =>
      if PathChar(b) then Move([], 513)
      else if b == PERCENT then Move([], 243)
      else if b == NUMBER then Move([SetPath], 453)
      else if b == QUESTION then Move([SetPath], 456)
      else ERROR
    case 456 =>
      if QueryChar(b) then Move([Mark], 457)
      else if b == PERCENT then Move([Mark], 7)
      else if b == NUMBER then Move([Mark, SetQuery], 453)
      else ERROR
    case 457 =>
      if QueryChar(b) then Move([], 457)
      else if b == PERCENT then Move([], 7)
      else if b == NUMBER then Move([SetQuery], 453)
      else ERROR
    case 453 =>
      if QueryChar(b) then Move([Mark], 454)
      else if b == PERCENT then Move([Mark], 1)
      else ERROR
    case 454 =>
      if QueryChar(b) then Move([], 454)
      else if b == PERCENT then Move([], 1)
      else ERROR
    case 253 => Hexed(b, 254)
    case 254 => Hexed(b, 520)
    case 256 => Hexed(b, 257)
    case 257 => Hexed(b, 255)
    case 258 => Hexed(b, 259)
    case 259 => Hexed(b, 523)
    case 243 => Hexed(b, 244)
    case 244 => Hexed(b, 513)
    case 7 => Hexed(b, 8)
    case 8 => Hexed(b, 457)
    case 1 => Hexed(b, 2)
    case 2 => Hexed(b, 454)
    case _ => Off
  }

  /** The actions at the end of the text. */
  function AtEnd(cs: nat): seq<Prim> {
    match cs
    case 513 => [SetPath]
    case 457 => [SetQuery]
    case 454 => [SetFragment]
    case 456 => [Mark, SetQuery]
    case 453 => [Mark, SetFragment]
    case 514 => [Mark, SetPort, SetPath]
    case 521 => [Mark, SetPort, SetPath]
    case 511 => [Mark, SetHost, SetPath]
    case 522 => [Mark, SetHost, SetPath]
    case 515 => [SetPort, Mark, SetPath]
    case 542 => [SetPort, Mark, SetPath]
    case 520 => [SetHost, Mark, SetPath]
    case 523 => [SetHost, Mark, SetPath]
    case _ => []
  }

  const MAX_INT: nat := 0x7fff_ffff

  /** What an action does, with the text since the mark if there is one. None: a string is made from a null
      mark, or a number exceeds an int; the source has no defined behaviour then. */
  function Do(prim: Prim, acc: Option<seq<byte>>, u: Uri): Option<(Option<seq<byte>>, Uri)> {
    match prim
    case Mark => Some((Some([]), u))
    case SetHost => Some((acc, if acc.Some? then u.(host := acc.value) else u))
    case SetUserinfo => Some((None, if acc.Some? then u.(userinfo := acc.value) else u))
    case SetPort =>
      if acc.None? then None
      else if acc.value == [] then Some((None, u))
      else if (forall i | 0 <= i < |acc.value| :: IsDigit(acc.value[i])) && Atoi(acc.value) <= MAX_INT then
        Some((None, u.(port := Atoi(acc.value))))
      else None
    case SetScheme => if acc.None? then None else Some((None, u.(scheme := acc.value)))
    case SetPath => if acc.None? then None else Some((None, u.(path := acc.value)))
    case SetQuery => if acc.None? then None else Some((None, u.(query := acc.value)))
    case SetFragment => if acc.None? then None else Some((None, u.(fragment := acc.value)))
  }

  function DoAll(acts: seq<Prim>, acc: Option<seq<byte>>, u: Uri): Option<(Option<seq<byte>>, Uri)> {
    if acts == [] then Some((acc, u))
    else
      match Do(acts[0], acc, u)
      case None => None
      case Some((acc', u')) => DoAll(acts[1..], acc', u')
  }

  datatype Result = Accepted(uri: Uri) | Rejected | Undefined | Unmodelled

  function Grow(acc: Option<seq<byte>>, b: byte): Option<seq<byte>> {
    if acc.Some? then Some(acc.value + [b]) else None
  }

  /** The rest of a run, from a state, the text since the mark and the fields set so far. */
  function Run(s: seq<byte>, cs: nat, acc: Option<seq<byte>>, u: Uri): Result
    decreases |s|
  {
    if s == [] then
      match DoAll(AtEnd(cs), acc, u)
      case None => Undefined
      case Some((_, u')) => if cs >= 451 then Accepted(u') else Rejected
    else
      match Table(cs, s[0])
      case Off => Unmodelled
      case Move(acts, to) =>
        if to == 0 then Rejected
        else
          match DoAll(acts, acc, u)
          case None => Undefined
          case Some((acc', u')) => Run(s[1..], to, Grow(acc', s[0]), u')
  }

  /** Uri::Create. */
  function Parse(s: seq<byte>): Result {
    Run(s, 451, None, EMPTY)
  }
}

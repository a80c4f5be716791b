/** JSON texts as derivations of the grammar in sections 2 to 7 of RFC 8259, and how each prints. */
module JsonGrammar {

  predicate IsWs(c: char) {
    c == ' ' || c == '\t' || c == '\n' || c == '\r'
  }

  type Ws = w: string | forall i :: 0 <= i < |w| ==> IsWs(w[i]) witness ""

  predicate IsDigitChar(c: char) {
    '0' <= c <= '9'
  }

  predicate IsHex(c: char) {
    IsDigitChar(c) || 'a' <= c <= 'f' || 'A' <= c <= 'F'
  }

  type Digits = d: string | d != "" && forall i :: 0 <= i < |d| ==> IsDigitChar(d[i]) witness "0"

  /**
   * Section 6: a minus, an integer without leading zeros, a fraction and an exponent, each but the integer optional.
   */
  datatype Exponent = NoExponent | Exponent(letter: char, sign: string, power: Digits)

  datatype Number = Number(minus: bool, whole: Digits, fraction: string, exponent: Exponent)

  predicate NumberOk(n: Number) {
    && (n.whole[0] == '0' ==> |n.whole| == 1)
    && (n.fraction == "" || (|n.fraction| >= 2 && n.fraction[0] == '.'
                             && forall i :: 1 <= i < |n.fraction| ==> IsDigitChar(n.fraction[i])))
    && (n.exponent.Exponent? ==>
          (n.exponent.letter == 'e' || n.exponent.letter == 'E')
          && (n.exponent.sign == "" || n.exponent.sign == "+" || n.exponent.sign == "-"))
  }

  function PrintNumber(n: Number): string {
    (if n.minus then "-" else "") + n.whole + n.fraction
    + match n.exponent case NoExponent => "" case Exponent(l, sign, power) => [l] + sign + power
  }

  /** Section 7: a string is made of unescaped characters, two-character escapes and `\u` escapes. */
  datatype Unit = Plain(c: char) | Escape(letter: char) | Hex(a: char, b: char, c: char, d: char)

  predicate UnitOk(u: Unit) {
    match u
    case Plain(c) => c >= ' ' && c != '"' && c != '\\'
    case Escape(l) => l in "\"\\/bfnrt"
    case Hex(a, b, c, d) => IsHex(a) && IsHex(b) && IsHex(c) && IsHex(d)
  }

  function PrintUnit(u: Unit): string {
    match u
    case Plain(c) => [c]
    case Escape(l) => ['\\', l]
    case Hex(a, b, c, d) => ['\\', 'u', a, b, c, d]
  }

  type Chars = us: seq<Unit> | forall i :: 0 <= i < |us| ==> UnitOk(us[i]) witness []

  function PrintUnits(us: Chars): string {
    if us == [] then "" else PrintUnit(us[0]) + PrintUnits(us[1..])
  }

  function PrintString(us: Chars): string {
    "\"" + PrintUnits(us) + "\""
  }

  /** Section 3, with the whitespace of section 2 kept wherever the grammar allows it. */
  datatype Json =
    | True | False | Null
    | Num(number: Number)
    | Str(chars: Chars)
    | EmptyArr(inner: Ws)
    | Arr(lead: Ws, elements: Elements)
    | EmptyObj(inner: Ws)
    | Obj(lead: Ws, members: Members)

  /** Section 5: elements, each with the whitespace after it and, when another follows, before that one. */
  datatype Elements =
    | One(value: Json, after: Ws)
    | More(value: Json, after: Ws, before: Ws, rest: Elements)

  /** Section 4: a member is a string, a colon and a value. */
  datatype Member = Member(key: Chars, beforeColon: Ws, afterColon: Ws, value: Json)

  datatype Members =
    | OneMember(member: Member, after: Ws)
    | MoreMembers(member: Member, after: Ws, before: Ws, rest: Members)

  predicate JsonOk(v: Json) {
    match v
    case Num(n) => NumberOk(n)
    case Arr(_, es) => ElementsOk(es)
    case Obj(_, ms) => MembersOk(ms)
    case _ => true
  }

  predicate ElementsOk(es: Elements) {
    JsonOk(es.value) && (es.More? ==> ElementsOk(es.rest))
  }

  predicate MembersOk(ms: Members) {
    JsonOk(ms.member.value) && (ms.MoreMembers? ==> MembersOk(ms.rest))
  }

  /** What separates one element or member from the next. */
  function Between(after: Ws, before: Ws): string {
    after + "," + before
  }

  function Print(v: Json): string {
    match v
    case True => "true"
    case False => "false"
    case Null => "null"
    case Num(n) => PrintNumber(n)
    case Str(us) => PrintString(us)
    case EmptyArr(w) => "[" + w + "]"
    case Arr(w, es) => "[" + (w + PrintElements(es)) + "]"
    case EmptyObj(w) => "{" + w + "}"
    case Obj(w, ms) => "{" + (w + PrintMembers(ms)) + "}"
  }

  function PrintElements(es: Elements): string {
    match es
    case One(v, after) => Print(v) + after
    case More(v, after, before, rest) => Print(v) + (Between(after, before) + PrintElements(rest))
  }

  function Colon(before: Ws, after: Ws): string {
    before + ":" + after
  }

  function PrintMember(m: Member): string {
    PrintString(m.key) + (Colon(m.beforeColon, m.afterColon) + Print(m.value))
  }

  function PrintMembers(ms: Members): string {
    match ms
    case OneMember(m, after) => PrintMember(m) + after
    case MoreMembers(m, after, before, rest) => PrintMember(m) + (Between(after, before) + PrintMembers(rest))
  }

  /** The elements of an array, in order. */
  function Values(es: Elements): (vs: seq<Json>)
    ensures |vs| >= 1
  {
    match es
    case One(v, _) => [v]
    case More(v, _, _, rest) => [v] + Values(rest)
  }

  /** Their texts. */
  function Texts(es: Elements): (texts: seq<string>)
    ensures |texts| == |Values(es)|
    ensures forall i :: 0 <= i < |texts| ==> texts[i] == Print(Values(es)[i])
    ensures ElementsOk(es) ==> forall i :: 0 <= i < |texts| ==> JsonOk(Values(es)[i])
  {
    match es
    case One(v, _) => [Print(v)]
    case More(v, _, _, rest) => [Print(v)] + Texts(rest)
  }

  /** The members of an object, in order. */
  function Flat(ms: Members): (flat: seq<Member>)
    ensures |flat| >= 1
  {
    match ms
    case OneMember(m, _) => [m]
    case MoreMembers(m, _, _, rest) => [m] + Flat(rest)
  }
}

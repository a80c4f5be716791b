/** The byte-preserving span reader (sdk/ts/src/parse.ts; sdk/python/src/tideline/parse.py is the same algorithm). */
module JsonScan {
  import opened Bytes
  import opened JsonGrammar

  datatype Expected =
    | AString | AValue | AnArray | AnObject | AColon | CommaOrBrace | CommaOrBracket | AValidKey
    | UnterminatedString | UnterminatedBrackets | UnterminatedArray | UnterminatedObject | MismatchedBracket

  datatype ParseError = ParseError(message: Expected, offset: nat)

  type Scan<T> = Result<T, ParseError>

  /** Decodes a string literal, as the platform's JSON parser does; `None` when it rejects the literal. */
  type Decoder = string -> Option<string>

  predicate CharAt(s: string, i: nat, c: char) {
    i < |s| && s[i] == c
  }

  predicate Opens(c: char) {
    c == '{' || c == '['
  }

  predicate Closes(c: char) {
    c == '}' || c == ']'
  }

  predicate EndsScalar(c: char) {
    IsWs(c) || c == ',' || Closes(c)
  }

  // --- What each scan finds ----------------------------------------------------------------

  function AfterWs(s: string, i: nat): (j: nat)
    ensures i <= j && (i <= |s| ==> j <= |s|)
    decreases |s| - i
  {
    if i < |s| && IsWs(s[i]) then AfterWs(s, i + 1) else i
  }

  /** Just past the quote that closes the string whose characters start at `i`. */
  function Unquoted(s: string, i: nat): (r: Scan<nat>)
    ensures r.Ok? ==> i < r.value <= |s|
    decreases |s| - i
  {
    if i >= |s| then Err(ParseError(UnterminatedString, i))
    else if s[i] == '\\' then Unquoted(s, i + 2)
    else if s[i] == '"' then Ok(i + 1)
    else Unquoted(s, i + 1)
  }

  function StringEnd(s: string, i: nat): (r: Scan<nat>)
    ensures r.Ok? ==> i < r.value <= |s|
  {
    if !CharAt(s, i, '"') then Err(ParseError(AString, i)) else Unquoted(s, i + 1)
  }

  /** Just past the bracket that brings `depth` back to zero. */
  function Unnested(s: string, i: nat, depth: int, close: char): (r: Scan<nat>)
    ensures r.Ok? ==> i < r.value <= |s|
    decreases |s| - i
  {
    if i >= |s| then Err(ParseError(UnterminatedBrackets, i))
    else if s[i] == '"' then
      match StringEnd(s, i)
      case Err(e) => Err(e)
      case Ok(j) => Unnested(s, j, depth, close)
    else if Opens(s[i]) then Unnested(s, i + 1, depth + 1, close)
    else if Closes(s[i]) then
      if depth - 1 != 0 then Unnested(s, i + 1, depth - 1, close)
      else if s[i] != close then Err(ParseError(MismatchedBracket, i))
      else Ok(i + 1)
    else Unnested(s, i + 1, depth, close)
  }

  function AfterScalar(s: string, i: nat): (j: nat)
    ensures i <= j && (i <= |s| ==> j <= |s|)
    decreases |s| - i
  {
    if i < |s| && !EndsScalar(s[i]) then AfterScalar(s, i + 1) else i
  }

  function ValueEnd(s: string, i: nat): (r: Scan<nat>)
    ensures r.Ok? ==> i < r.value <= |s|
  {
    if i >= |s| then Err(ParseError(AValue, i))
    else if s[i] == '"' then StringEnd(s, i)
    else if Opens(s[i]) then Unnested(s, i, 0, if s[i] == '{' then '}' else ']')
    else if AfterScalar(s, i) == i then Err(ParseError(AValue, i))
    else Ok(AfterScalar(s, i))
  }

  /** The element texts from the element at `i` to the end of the array. */
  function ElementsFrom(s: string, i: nat): Scan<seq<string>>
    decreases |s| - i
  {
    if i >= |s| then Err(ParseError(UnterminatedArray, i))
    else
      match ValueEnd(s, i)
      case Err(e) => Err(e)
      case Ok(end) =>
        var j := AfterWs(s, end);
        if CharAt(s, j, ',') then
          match ElementsFrom(s, AfterWs(s, j + 1))
          case Err(e) => Err(e)
          case Ok(rest) => Ok([s[i..end]] + rest)
        else if CharAt(s, j, ']') then Ok([s[i..end]])
        else Err(ParseError(CommaOrBracket, j))
  }

  function ArrayTexts(s: string): Scan<seq<string>> {
    var i := AfterWs(s, 0);
    if !CharAt(s, i, '[') then Err(ParseError(AnArray, i))
    else
      var j := AfterWs(s, i + 1);
      if CharAt(s, j, ']') then Ok([]) else ElementsFrom(s, j)
  }

  /** The member at `i`: its decoded key, and where its value starts and ends. */
  function MemberAt(s: string, i: nat, decode: Decoder): (r: Scan<(string, nat, nat)>)
    ensures r.Ok? ==> i < r.value.1 < r.value.2 <= |s|
  {
    match StringEnd(s, i)
    case Err(e) => Err(e)
    case Ok(keyEnd) =>
      var found := decode(s[i..keyEnd]);
      if found.None? then Err(ParseError(AValidKey, i))
      else
        var colon := AfterWs(s, keyEnd);
        if !CharAt(s, colon, ':') then Err(ParseError(AColon, colon))
        else
          var start := AfterWs(s, colon + 1);
          match ValueEnd(s, start)
          case Err(e) => Err(e)
          case Ok(end) => Ok((found.value, start, end))
  }

  /** The value text of the first member from `i` on whose key decodes to `key`. */
  function MemberFrom(s: string, i: nat, key: string, decode: Decoder): Scan<Option<string>>
    decreases |s| - i
  {
    if i >= |s| then Err(ParseError(UnterminatedObject, i))
    else
      match MemberAt(s, i, decode)
      case Err(e) => Err(e)
      case Ok((name, start, end)) =>
        if name == key then Ok(Some(s[start..end]))
        else
          var j := AfterWs(s, end);
          if CharAt(s, j, ',') then MemberFrom(s, AfterWs(s, j + 1), key, decode)
          else if CharAt(s, j, '}') then Ok(None)
          else Err(ParseError(CommaOrBrace, j))
  }

  function MemberText(s: string, key: string, decode: Decoder): Scan<Option<string>> {
    var i := AfterWs(s, 0);
    if !CharAt(s, i, '{') then Err(ParseError(AnObject, i))
    else
      var j := AfterWs(s, i + 1);
      if CharAt(s, j, '}') then Ok(None) else MemberFrom(s, j, key, decode)
  }

  // --- The scanner ------------------------------------------------------------------------

  method SkipWs(s: string, start: nat) returns (i: nat)
    ensures i == AfterWs(s, start)
  {
    i := start;
    while i < |s| && IsWs(s[i])
      invariant AfterWs(s, start) == AfterWs(s, i)
    {
      i := i + 1;
    }
  }

  /** What is skipped is spaces, tabs and line ends, all of those and nothing else. */
  lemma {:induction false} SkippedExactly(s: string, start: nat)
    requires start <= |s|
    ensures var i := AfterWs(s, start);
            && start <= i <= |s| && (i < |s| ==> s[i] !in " \t\n\r")
            && forall j :: start <= j < i ==> s[j] in " \t\n\r"
    decreases |s| - start
  {
    if start < |s| && IsWs(s[start]) {
      SkippedExactly(s, start + 1);
    }
  }

  method ScanString(s: string, start: nat) returns (r: Scan<nat>)
    ensures r == StringEnd(s, start)
  {
    var i := start;
    if i >= |s| || s[i] != '"' {
      return Err(ParseError(AString, i));
    }
    i := i + 1;
    while i < |s|
      invariant StringEnd(s, start) == Unquoted(s, i)
    {
      if s[i] == '\\' {
        i := i + 2;
        continue;
      }
      if s[i] == '"' {
        return Ok(i + 1);
      }
      i := i + 1;
    }
    return Err(ParseError(UnterminatedString, i));
  }

  method ScanValue(s: string, start: nat) returns (r: Scan<nat>)
    ensures r == ValueEnd(s, start)
  {
    var i := start;
    if i >= |s| {
      return Err(ParseError(AValue, i));
    }
    if s[i] == '"' {
      r := ScanString(s, i);
      return;
    }
    if Opens(s[i]) {
      var close := if s[i] == '{' then '}' else ']';
      var depth := 0;
      while i < |s|
        invariant ValueEnd(s, start) == Unnested(s, i, depth, close)
      {
        if s[i] == '"' {
          r := ScanString(s, i);
          if r.Err? {
            return;
          }
          i := r.value;
          continue;
        }
        if Opens(s[i]) {
          depth := depth + 1;
        } else if Closes(s[i]) {
          depth := depth - 1;
          if depth == 0 {
            if s[i] != close {
              return Err(ParseError(MismatchedBracket, i));
            }
            return Ok(i + 1);
          }
        }
        i := i + 1;
      }
      return Err(ParseError(UnterminatedBrackets, i));
    }
    while i < |s| && !EndsScalar(s[i])
      invariant start <= i && AfterScalar(s, start) == AfterScalar(s, i)
    {
      i := i + 1;
    }
    if i == start {
      return Err(ParseError(AValue, i));
    }
    return Ok(i);
  }

  method RawMember(s: string, key: string, decode: Decoder) returns (r: Scan<Option<string>>)
    ensures r == MemberText(s, key, decode)
  {
    hide AfterWs, StringEnd, ValueEnd, IsWs;
    var i := SkipWs(s, 0);
    if i >= |s| || s[i] != '{' {
      return Err(ParseError(AnObject, i));
    }
    i := SkipWs(s, i + 1);
    if i < |s| && s[i] == '}' {
      return Ok(None);
    }
    while i < |s|
      invariant MemberText(s, key, decode) == MemberFrom(s, i, key, decode)
    {
      var keyStart := i;
      var scanned := ScanString(s, i);
      if scanned.Err? {
        return Err(scanned.error);
      }
      var keyEnd := scanned.value;
      var found := decode(s[keyStart..keyEnd]);
      if found.None? {
        return Err(ParseError(AValidKey, keyStart));
      }
      i := SkipWs(s, keyEnd);
      if i >= |s| || s[i] != ':' {
        return Err(ParseError(AColon, i));
      }
      i := SkipWs(s, i + 1);
      var valueStart := i;
      scanned := ScanValue(s, i);
      if scanned.Err? {
        return Err(scanned.error);
      }
      var valueEnd := scanned.value;
      assert MemberAt(s, keyStart, decode) == Ok((found.value, valueStart, valueEnd));
      if found.value == key {
        return Ok(Some(s[valueStart..valueEnd]));
      }
      i := SkipWs(s, valueEnd);
      if i < |s| && s[i] == ',' {
        i := SkipWs(s, i + 1);
        continue;
      }
      if i < |s| && s[i] == '}' {
        return Ok(None);
      }
      return Err(ParseError(CommaOrBrace, i));
    }
    return Err(ParseError(UnterminatedObject, i));
  }

  method SplitArray(s: string) returns (r: Scan<seq<string>>)
    ensures r == ArrayTexts(s)
  {
    hide AfterWs, ValueEnd, IsWs;
    var i := SkipWs(s, 0);
    if i >= |s| || s[i] != '[' {
      return Err(ParseError(AnArray, i));
    }
    i := SkipWs(s, i + 1);
    var out: seq<string> := [];
    if i < |s| && s[i] == ']' {
      return Ok(out);
    }
    PrependNone(ElementsFrom(s, i));
    while i < |s|
      invariant ArrayTexts(s) == Prepend(out, ElementsFrom(s, i))
    {
      var start := i;
      var scanned := ScanValue(s, i);
      if scanned.Err? {
        return Err(scanned.error);
      }
      var end := scanned.value;
      PrependOne(out, s[start..end], s, i, end);
      out := out + [s[start..end]];
      i := SkipWs(s, end);
      if i < |s| && s[i] == ',' {
        i := SkipWs(s, i + 1);
        continue;
      }
      if i < |s| && s[i] == ']' {
        return Ok(out);
      }
      return Err(ParseError(CommaOrBracket, i));
    }
    return Err(ParseError(UnterminatedArray, i));
  }

  function Prepend(out: seq<string>, r: Scan<seq<string>>): Scan<seq<string>> {
    match r
    case Err(e) => Err(e)
    case Ok(rest) => Ok(out + rest)
  }

  lemma PrependNone(r: Scan<seq<string>>)
    ensures Prepend([], r) == r
  {
    if r.Ok? {
      assert [] + r.value == r.value;
    }
  }

  lemma PrependOne(out: seq<string>, text: string, s: string, i: nat, end: nat)
    requires ValueEnd(s, i) == Ok(end) && i < |s| && text == s[i..end]
    ensures Prepend(out, ElementsFrom(s, i))
         == (var j := AfterWs(s, end);
             if CharAt(s, j, ',') then Prepend(out + [text], ElementsFrom(s, AfterWs(s, j + 1)))
             else if CharAt(s, j, ']') then Ok(out + [text])
             else Err(ParseError(CommaOrBracket, j)))
  {
    hide AfterWs, ValueEnd;
    var j := AfterWs(s, end);
    if CharAt(s, j, ',') {
      var more := ElementsFrom(s, AfterWs(s, j + 1));
      if more.Ok? {
        assert out + ([text] + more.value) == out + [text] + more.value;
      }
    }
  }

  // --- Scanning a printed text -----------------------------------------------------------------

  /** `p` stands in `s` at `i`. */
  predicate At(s: string, i: nat, p: string) {
    i + |p| <= |s| && s[i..i + |p|] == p
  }

  lemma AtParts(s: string, i: nat, a: string, b: string)
    requires At(s, i, a + b)
    ensures At(s, i, a) && At(s, i + |a|, b)
  {
    assert (a + b)[..|a|] == a && (a + b)[|a|..] == b;
    assert s[i..i + |a|] == s[i..i + |a + b|][..|a|];
    assert s[i + |a|..i + |a| + |b|] == s[i..i + |a + b|][|a|..];
  }

  lemma AtFirst(s: string, i: nat, p: string)
    requires At(s, i, p) && p != ""
    ensures i < |s| && s[i] == p[0] && At(s, i + 1, p[1..])
  {
    AtParts(s, i, p[..1], p[1..]);
    assert p == p[..1] + p[1..];
  }

  lemma AtIndex(s: string, i: nat, p: string)
    requires At(s, i, p)
    ensures forall k :: i <= k < i + |p| ==> s[k] == p[k - i]
  {
    forall k | i <= k < i + |p| ensures s[k] == p[k - i] {
      assert s[i..i + |p|][k - i] == s[k];
    }
  }

  lemma {:induction false} WsIsSkipped(s: string, i: nat, w: Ws)
    requires At(s, i, w)
    ensures AfterWs(s, i) == AfterWs(s, i + |w|)
    ensures i + |w| < |s| && !IsWs(s[i + |w|]) ==> AfterWs(s, i) == i + |w|
    decreases |w|
  {
    if w != "" {
      AtFirst(s, i, w);
      var shorter: Ws := w[1..];
      WsIsSkipped(s, i + 1, shorter);
    }
  }

  lemma {:induction false} UnitsAreSkipped(s: string, i: nat, us: Chars)
    requires At(s, i, PrintUnits(us))
    ensures Unquoted(s, i) == Unquoted(s, i + |PrintUnits(us)|)
    decreases |us|
  {
    hide Unquoted, PrintUnit, At, UnitOk;
    if us != [] {
      var rest: Chars := us[1..];
      AtParts(s, i, PrintUnit(us[0]), PrintUnits(rest));
      UnitIsSkipped(s, i, us[0]);
      UnitsAreSkipped(s, i + |PrintUnit(us[0])|, rest);
    }
  }

  lemma UnitIsSkipped(s: string, i: nat, u: Unit)
    requires UnitOk(u) && At(s, i, PrintUnit(u))
    ensures Unquoted(s, i) == Unquoted(s, i + |PrintUnit(u)|)
  {
    AtIndex(s, i, PrintUnit(u));
    match u
    case Plain(_) =>
    case Escape(_) =>
    case Hex(a, b, c, d) =>
      assert Unquoted(s, i) == Unquoted(s, i + 2);
      assert s[i + 2] == a && s[i + 3] == b && s[i + 4] == c && s[i + 5] == d;
      assert Unquoted(s, i + 2) == Unquoted(s, i + 3);
      assert Unquoted(s, i + 3) == Unquoted(s, i + 4);
      assert Unquoted(s, i + 4) == Unquoted(s, i + 5);
      assert Unquoted(s, i + 5) == Unquoted(s, i + 6);
  }

  /** A printed string ends at its own closing quote, whatever is escaped in it. */
  lemma StringIsScanned(s: string, i: nat, us: Chars)
    requires At(s, i, PrintString(us))
    ensures StringEnd(s, i) == Ok(i + |PrintString(us)|)
  {
    hide At, PrintUnits;
    var p := PrintUnits(us);
    assert PrintString(us) == ['"'] + p + ['"'];
    Bracketed(s, i, '"', p, '"');
    UnitsAreSkipped(s, i + 1, us);
  }

  // --- Inside brackets: a printed piece leaves the depth as it found it ---------------------------

  /** No character of `p` is a quote or a bracket. */
  predicate Bland(p: string) {
    forall i :: 0 <= i < |p| ==> p[i] != '"' && !Opens(p[i]) && !Closes(p[i])
  }

  /** Bland, and nothing in it ends a number or literal. */
  predicate Solid(p: string) {
    Bland(p) && forall i :: 0 <= i < |p| ==> !EndsScalar(p[i])
  }

  lemma NumberIsSolid(n: Number)
    requires NumberOk(n)
    ensures Solid(PrintNumber(n)) && PrintNumber(n) != ""
  {
    hide Solid;
    var sign := if n.minus then "-" else "";
    PartsAreSolid(n);
    SolidTogether(sign, n.whole);
    SolidTogether(sign + n.whole, n.fraction);
    if n.exponent.Exponent? {
      SolidTogether([n.exponent.letter], n.exponent.sign);
      SolidTogether([n.exponent.letter] + n.exponent.sign, n.exponent.power);
      SolidTogether(sign + n.whole + n.fraction, [n.exponent.letter] + n.exponent.sign + n.exponent.power);
    } else {
      assert PrintNumber(n) == sign + n.whole + n.fraction;
    }
  }

  lemma PartsAreSolid(n: Number)
    requires NumberOk(n)
    ensures Solid(if n.minus then "-" else "") && Solid(n.whole) && Solid(n.fraction)
    ensures n.exponent.Exponent? ==>
              Solid([n.exponent.letter]) && Solid(n.exponent.sign) && Solid(n.exponent.power)
  {
  }

  lemma SolidTogether(a: string, b: string)
    requires Solid(a) && Solid(b)
    ensures Solid(a + b)
  {
  }

  predicate IsScalar(v: Json) {
    v.True? || v.False? || v.Null? || v.Num?
  }

  lemma ScalarIsSolid(v: Json)
    requires JsonOk(v) && IsScalar(v)
    ensures Solid(Print(v)) && Print(v) != ""
  {
    if v.Num? {
      NumberIsSolid(v.number);
    }
  }

  lemma {:induction false} BlandPasses(s: string, i: nat, p: string, depth: int, close: char)
    requires At(s, i, p) && Bland(p)
    ensures Unnested(s, i, depth, close) == Unnested(s, i + |p|, depth, close)
    decreases |p|
  {
    if p != "" {
      AtFirst(s, i, p);
      BlandPasses(s, i + 1, p[1..], depth, close);
    }
  }

  lemma StringPasses(s: string, i: nat, us: Chars, depth: int, close: char)
    requires At(s, i, PrintString(us))
    ensures Unnested(s, i, depth, close) == Unnested(s, i + |PrintString(us)|, depth, close)
  {
    StringIsScanned(s, i, us);
    AtFirst(s, i, PrintString(us));
  }

  /** What stands between the brackets of a container. */
  function Inside(v: Json): string
    requires !IsScalar(v) && !v.Str?
  {
    match v
    case EmptyArr(w) => w
    case Arr(w, es) => w + PrintElements(es)
    case EmptyObj(w) => w
    case Obj(w, ms) => w + PrintMembers(ms)
  }

  predicate IsObject(v: Json) {
    v.EmptyObj? || v.Obj?
  }

  lemma PrintContainer(v: Json)
    requires !IsScalar(v) && !v.Str?
    ensures Print(v) == (if IsObject(v) then "{" else "[") + Inside(v) + (if IsObject(v) then "}" else "]")
  {
    hide PrintElements, PrintMembers;
  }

  lemma Bracketed(s: string, i: nat, open: char, inside: string, close: char)
    requires At(s, i, [open] + inside + [close])
    ensures CharAt(s, i, open) && At(s, i + 1, inside) && CharAt(s, i + 1 + |inside|, close)
  {
    AtParts(s, i, [open] + inside, [close]);
    AtParts(s, i, [open], inside);
    AtFirst(s, i, [open]);
    AtFirst(s, i + 1 + |inside|, [close]);
    hide At;
  }

  lemma ContainerParts(s: string, i: nat, v: Json)
    requires At(s, i, Print(v)) && !IsScalar(v) && !v.Str?
    ensures |Print(v)| == |Inside(v)| + 2
    ensures CharAt(s, i, if IsObject(v) then '{' else '[') && At(s, i + 1, Inside(v))
    ensures CharAt(s, i + 1 + |Inside(v)|, if IsObject(v) then '}' else ']')
  {
    var open, close := if IsObject(v) then "{" else "[", if IsObject(v) then "}" else "]";
    PrintContainer(v);
    hide Print, Inside, At;
    Bracketed(s, i, open[0], Inside(v), close[0]);
  }

  /** At any depth of at least one, scanning past a printed value changes nothing but the index. */
  lemma {:induction false} ValuePasses(s: string, i: nat, v: Json, depth: int, close: char)
    requires JsonOk(v) && At(s, i, Print(v)) && depth >= 1
    ensures Unnested(s, i, depth, close) == Unnested(s, i + |Print(v)|, depth, close)
    decreases v, 1
  {
    hide At, JsonOk, Print, PrintString, Inside, Bland;
    if IsScalar(v) {
      ScalarIsSolid(v);
      BlandPasses(s, i, Print(v), depth, close);
    } else if v.Str? {
      PrintStr(v);
      StringPasses(s, i, v.chars, depth, close);
    } else {
      ContainerParts(s, i, v);
      InsidePasses(s, i + 1, v, depth + 1, close);
    }
  }

  lemma PrintStr(v: Json)
    requires v.Str?
    ensures Print(v) == PrintString(v.chars)
  {
  }

  lemma {:induction false} InsidePasses(s: string, i: nat, v: Json, depth: int, close: char)
    requires JsonOk(v) && !IsScalar(v) && !v.Str? && At(s, i, Inside(v)) && depth >= 1
    ensures Unnested(s, i, depth, close) == Unnested(s, i + |Inside(v)|, depth, close)
    decreases v, 0
  {
    hide At, Unnested, Bland, PrintElements, PrintMembers;
    match v
    case EmptyArr(w) =>
      SeparatorsAreBland(w, w);
      BlandPasses(s, i, w, depth, close);
    case EmptyObj(w) =>
      SeparatorsAreBland(w, w);
      BlandPasses(s, i, w, depth, close);
    case Arr(w, es) =>
      SeparatorsAreBland(w, w);
      AtParts(s, i, w, PrintElements(es));
      BlandPasses(s, i, w, depth, close);
      ElementsPass(s, i + |w|, es, depth, close);
    case Obj(w, ms) =>
      SeparatorsAreBland(w, w);
      AtParts(s, i, w, PrintMembers(ms));
      BlandPasses(s, i, w, depth, close);
      MembersPass(s, i + |w|, ms, depth, close);
  }

  lemma ElementsParts(s: string, i: nat, es: Elements)
    requires At(s, i, PrintElements(es))
    ensures At(s, i, Print(es.value))
    ensures var j := i + |Print(es.value)|;
            match es
            case One(_, after) => At(s, j, after) && j + |after| == i + |PrintElements(es)|
            case More(_, after, before, rest) =>
              var k := j + |Between(after, before)|;
              At(s, j, Between(after, before)) && At(s, k, PrintElements(rest))
                  && k + |PrintElements(rest)| == i + |PrintElements(es)|
  {
    hide Print, At, Between;
    var j := i + |Print(es.value)|;
    match es
    case One(v, after) =>
      AtParts(s, i, Print(v), after);
    case More(v, after, before, rest) =>
      AtParts(s, i, Print(v), Between(after, before) + PrintElements(rest));
      AtParts(s, j, Between(after, before), PrintElements(rest));
  }

  lemma SeparatorsAreBland(a: Ws, b: Ws)
    ensures Bland(a) && Bland(Between(a, b)) && Bland(Colon(a, b))
  {
  }

  lemma MemberParts(s: string, i: nat, m: Member)
    requires At(s, i, PrintMember(m))
    ensures At(s, i, PrintString(m.key))
    ensures At(s, i + |PrintString(m.key)|, Colon(m.beforeColon, m.afterColon))
    ensures var v := i + |PrintString(m.key)| + |Colon(m.beforeColon, m.afterColon)|;
            At(s, v, Print(m.value)) && v + |Print(m.value)| == i + |PrintMember(m)|
  {
    hide Print, At, PrintString, Colon;
    var k, c := PrintString(m.key), Colon(m.beforeColon, m.afterColon);
    AtParts(s, i, k, c + Print(m.value));
    AtParts(s, i + |k|, c, Print(m.value));
  }

  lemma MembersParts(s: string, i: nat, ms: Members)
    requires At(s, i, PrintMembers(ms))
    ensures At(s, i, PrintMember(ms.member))
    ensures var j := i + |PrintMember(ms.member)|;
            match ms
            case OneMember(_, after) => At(s, j, after) && j + |after| == i + |PrintMembers(ms)|
            case MoreMembers(_, after, before, rest) =>
              var k := j + |Between(after, before)|;
              At(s, j, Between(after, before)) && At(s, k, PrintMembers(rest))
                  && k + |PrintMembers(rest)| == i + |PrintMembers(ms)|
  {
    hide PrintMember, At, Between;
    var j := i + |PrintMember(ms.member)|;
    match ms
    case OneMember(m, after) =>
      AtParts(s, i, PrintMember(m), after);
    case MoreMembers(m, after, before, rest) =>
      AtParts(s, i, PrintMember(m), Between(after, before) + PrintMembers(rest));
      AtParts(s, j, Between(after, before), PrintMembers(rest));
  }

  lemma {:induction false} ElementsPass(s: string, i: nat, es: Elements, depth: int, close: char)
    requires ElementsOk(es) && At(s, i, PrintElements(es)) && depth >= 1
    ensures Unnested(s, i, depth, close) == Unnested(s, i + |PrintElements(es)|, depth, close)
    decreases es, 0
  {
    hide Print, PrintElements, At, Unnested, Bland, Between, JsonOk;
    ElementsParts(s, i, es);
    ValuePasses(s, i, es.value, depth, close);
    var j := i + |Print(es.value)|;
    match es
    case One(_, after) =>
      SeparatorsAreBland(after, after);
      BlandPasses(s, j, after, depth, close);
    case More(_, after, before, rest) =>
      SeparatorsAreBland(after, before);
      BlandPasses(s, j, Between(after, before), depth, close);
      ElementsPass(s, j + |Between(after, before)|, rest, depth, close);
  }

  lemma {:induction false} MembersPass(s: string, i: nat, ms: Members, depth: int, close: char)
    requires MembersOk(ms) && At(s, i, PrintMembers(ms)) && depth >= 1
    ensures Unnested(s, i, depth, close) == Unnested(s, i + |PrintMembers(ms)|, depth, close)
    decreases ms, 0
  {
    hide Print, PrintMembers, PrintMember, At, Unnested, Bland, Between, Colon, JsonOk, PrintString;
    MembersParts(s, i, ms);
    MemberPasses(s, i, ms.member, depth, close);
    var j := i + |PrintMember(ms.member)|;
    match ms
    case OneMember(_, after) =>
      SeparatorsAreBland(after, after);
      BlandPasses(s, j, after, depth, close);
    case MoreMembers(_, after, before, rest) =>
      SeparatorsAreBland(after, before);
      BlandPasses(s, j, Between(after, before), depth, close);
      MembersPass(s, j + |Between(after, before)|, rest, depth, close);
  }

  lemma {:induction false} MemberPasses(s: string, i: nat, m: Member, depth: int, close: char)
    requires JsonOk(m.value) && At(s, i, PrintMember(m)) && depth >= 1
    ensures Unnested(s, i, depth, close) == Unnested(s, i + |PrintMember(m)|, depth, close)
    decreases m, 0
  {
    hide Print, PrintMember, At, Unnested, Bland, Between, Colon, JsonOk, PrintString;
    MemberParts(s, i, m);
    var colon := i + |PrintString(m.key)|;
    StringPasses(s, i, m.key, depth, close);
    SeparatorsAreBland(m.beforeColon, m.afterColon);
    BlandPasses(s, colon, Colon(m.beforeColon, m.afterColon), depth, close);
    ValuePasses(s, colon + |Colon(m.beforeColon, m.afterColon)|, m.value, depth, close);
  }

  // --- The span of a value, and what the two readers return -----------------------------------------

  lemma {:induction false} SolidIsScanned(s: string, i: nat, p: string)
    requires At(s, i, p) && Solid(p) && (i + |p| == |s| || EndsScalar(s[i + |p|]))
    ensures AfterScalar(s, i) == i + |p|
    decreases |p|
  {
    if p != "" {
      AtFirst(s, i, p);
      SolidIsScanned(s, i + 1, p[1..]);
    }
  }

  /** A printed value starts with a character that is no whitespace, comma or closing bracket. */
  lemma PrintStarts(v: Json)
    requires JsonOk(v)
    ensures Print(v) != "" && !EndsScalar(Print(v)[0])
    ensures IsScalar(v) ==> Print(v)[0] != '"' && !Opens(Print(v)[0])
    ensures v.Str? ==> Print(v)[0] == '"'
    ensures !IsScalar(v) && !v.Str? ==> Print(v)[0] == if IsObject(v) then '{' else '['
  {
    hide PrintNumber, PrintElements, PrintMembers, PrintUnits;
    if IsScalar(v) {
      ScalarIsSolid(v);
    }
  }

  /** Scanning a printed value ends just past it, provided a number or literal is followed by what ends one. */
  lemma ValueIsScanned(s: string, i: nat, v: Json)
    requires JsonOk(v) && At(s, i, Print(v))
    requires i + |Print(v)| == |s| || EndsScalar(s[i + |Print(v)|])
    ensures ValueEnd(s, i) == Ok(i + |Print(v)|)
  {
    hide At, Print, PrintString, Inside, JsonOk, Solid;
    PrintStarts(v);
    AtFirst(s, i, Print(v));
    if IsScalar(v) {
      ScalarIsSolid(v);
      SolidIsScanned(s, i, Print(v));
    } else if v.Str? {
      PrintStr(v);
      StringIsScanned(s, i, v.chars);
    } else {
      ContainerParts(s, i, v);
      InsidePasses(s, i + 1, v, 1, if IsObject(v) then '}' else ']');
    }
  }

  lemma WsThen(s: string, i: nat, w: Ws, c: char)
    requires At(s, i, w) && CharAt(s, i + |w|, c) && !IsWs(c)
    ensures AfterWs(s, i) == i + |w|
    ensures i < |s| && (EndsScalar(c) ==> EndsScalar(s[i]))
  {
    WsIsSkipped(s, i, w);
    if w != "" {
      AtFirst(s, i, w);
    }
  }

  /** Skipping whitespace, a comma and whitespace again reaches the text after the separator. */
  lemma BetweenIsSkipped(s: string, i: nat, after: Ws, before: Ws, c: char)
    requires At(s, i, Between(after, before)) && CharAt(s, i + |Between(after, before)|, c) && !IsWs(c)
    ensures i < |s| && EndsScalar(s[i])
    ensures CharAt(s, AfterWs(s, i), ',')
    ensures AfterWs(s, AfterWs(s, i) + 1) == i + |Between(after, before)|
  {
    AtParts(s, i, after + ",", before);
    AtParts(s, i, after, ",");
    AtFirst(s, i + |after|, ",");
    hide At;
    WsThen(s, i, after, ',');
    WsThen(s, i + |after| + 1, before, c);
  }

  lemma ColonIsSkipped(s: string, i: nat, before: Ws, after: Ws, c: char)
    requires At(s, i, Colon(before, after)) && CharAt(s, i + |Colon(before, after)|, c) && !IsWs(c)
    ensures CharAt(s, AfterWs(s, i), ':')
    ensures AfterWs(s, AfterWs(s, i) + 1) == i + |Colon(before, after)|
  {
    AtParts(s, i, before + ":", after);
    AtParts(s, i, before, ":");
    AtFirst(s, i + |before|, ":");
    hide At;
    WsThen(s, i, before, ':');
    WsThen(s, i + |before| + 1, after, c);
  }

  lemma ElementsStart(s: string, i: nat, es: Elements)
    requires ElementsOk(es) && At(s, i, PrintElements(es))
    ensures i < |s| && !EndsScalar(s[i]) && s[i] == Print(es.value)[0] && Print(es.value) != ""
  {
    hide Print, At, Between, JsonOk;
    ElementsParts(s, i, es);
    PrintStarts(es.value);
    AtFirst(s, i, Print(es.value));
  }

  lemma {:induction false} ElementsAreSplit(s: string, i: nat, es: Elements)
    requires ElementsOk(es) && At(s, i, PrintElements(es)) && CharAt(s, i + |PrintElements(es)|, ']')
    ensures ElementsFrom(s, i) == Ok(Texts(es))
    decreases es
  {
    hide Print, PrintElements, At, Between, JsonOk, AfterWs, ValueEnd, EndsScalar;
    ElementsStart(s, i, es);
    ElementsParts(s, i, es);
    var j := i + |Print(es.value)|;
    match es
    case One(v, after) =>
      EndsWithBracket(s, j, after, ']');
      ValueIsScanned(s, i, v);
      SpanIs(s, i, Print(v));
    case More(v, after, before, rest) =>
      var k := j + |Between(after, before)|;
      ElementsStart(s, k, rest);
      NotWs(s[k]);
      BetweenIsSkipped(s, j, after, before, s[k]);
      ValueIsScanned(s, i, v);
      SpanIs(s, i, Print(v));
      ElementsAreSplit(s, k, rest);
  }

  lemma NotWs(c: char)
    requires !EndsScalar(c)
    ensures !IsWs(c)
  {
  }

  lemma EndsWithBracket(s: string, i: nat, w: Ws, c: char)
    requires At(s, i, w) && CharAt(s, i + |w|, c) && (c == ']' || c == '}')
    ensures AfterWs(s, i) == i + |w| && i < |s| && EndsScalar(s[i])
  {
    WsThen(s, i, w, c);
  }

  lemma SpanIs(s: string, i: nat, p: string)
    requires At(s, i, p)
    ensures i + |p| <= |s| && s[i..i + |p|] == p
  {
  }

  /** What the array reader must return for a printed array. */
  function ElementTexts(v: Json): seq<string>
    requires v.Arr? || v.EmptyArr?
  {
    if v.Arr? then Texts(v.elements) else []
  }

  lemma {:induction false} ArrayIsSplit(s: string, i: nat, v: Json)
    requires JsonOk(v) && (v.Arr? || v.EmptyArr?) && AfterWs(s, 0) == i && At(s, i, Print(v))
    ensures ArrayTexts(s) == Ok(ElementTexts(v))
  {
    hide Print, PrintElements, At, Texts;
    ContainerParts(s, i, v);
    match v
    case EmptyArr(w) =>
      WsThen(s, i + 1, w, ']');
    case Arr(w, es) =>
      AtParts(s, i + 1, w, PrintElements(es));
      var first := i + 1 + |w|;
      ElementsStart(s, first, es);
      WsThen(s, i + 1, w, s[first]);
      ElementsAreSplit(s, first, es);
  }

  /**
   * The array reader inverts printing: for every array text of the grammar, after any whitespace and whatever
   * follows, it returns exactly the texts of the elements.
   */
  lemma SplitInvertsPrinting(lead: Ws, v: Json, trail: string)
    requires JsonOk(v) && (v.Arr? || v.EmptyArr?)
    ensures ArrayTexts(lead + Print(v) + trail) == Ok(ElementTexts(v))
  {
    hide Print, At, JsonOk, ArrayTexts, AfterWs, ElementTexts;
    Placed(lead, v, trail);
    ArrayIsSplit(lead + Print(v) + trail, |lead|, v);
  }

  lemma Placed(lead: Ws, v: Json, trail: string)
    requires JsonOk(v)
    ensures At(lead + Print(v) + trail, |lead|, Print(v)) && AfterWs(lead + Print(v) + trail, 0) == |lead|
  {
    hide Print, JsonOk;
    var s := lead + Print(v) + trail;
    assert s[0..|s|] == s;
    AtParts(s, 0, lead + Print(v), trail);
    AtParts(s, 0, lead, Print(v));
    hide At;
    ValueStarts(s, |lead|, v);
    WsThen(s, 0, lead, s[|lead|]);
  }

  // --- Members ---------------------------------------------------------------------------------

  /** Every key before position `k` decodes, to something other than `key`. */
  predicate NoneBefore(flat: seq<Member>, k: nat, key: string, decode: Decoder) {
    && k <= |flat|
    && forall j :: 0 <= j < k ==> var found := decode(PrintString(flat[j].key)); found.Some? && found.value != key
  }

  /** Where the search goes after a member that ends at `end` and is not the one. */
  function MemberNext(s: string, end: nat, key: string, decode: Decoder): Scan<Option<string>> {
    var j := AfterWs(s, end);
    if CharAt(s, j, ',') then MemberFrom(s, AfterWs(s, j + 1), key, decode)
    else if CharAt(s, j, '}') then Ok(None)
    else Err(ParseError(CommaOrBrace, j))
  }

  lemma MemberAtIs(s: string, i: nat, m: Member, decode: Decoder)
    requires JsonOk(m.value) && At(s, i, PrintMember(m))
    requires var j := i + |PrintMember(m)|; j == |s| || EndsScalar(s[j])
    ensures i < |s| && ValueStart(i, m) <= i + |PrintMember(m)| <= |s|
    ensures MemberAt(s, i, decode)
         == (var found := decode(PrintString(m.key));
             if found.None? then Err(ParseError(AValidKey, i))
             else Ok((found.value, ValueStart(i, m), i + |PrintMember(m)|)))
    ensures s[ValueStart(i, m)..i + |PrintMember(m)|] == Print(m.value)
  {
    hide Print, PrintMember, PrintString, At, JsonOk, AfterWs, ValueEnd, StringEnd, EndsScalar, ValueStart;
    KeyIsRead(s, i, m);
    ColonIsRead(s, i, m);
    ValueIsRead(s, i, m);
  }

  lemma MemberStep(s: string, i: nat, m: Member, key: string, decode: Decoder)
    requires JsonOk(m.value) && At(s, i, PrintMember(m))
    requires var j := i + |PrintMember(m)|; j == |s| || EndsScalar(s[j])
    ensures MemberFrom(s, i, key, decode)
         == (var found := decode(PrintString(m.key));
             if found.None? then Err(ParseError(AValidKey, i))
             else if found.value == key then Ok(Some(Print(m.value)))
             else MemberNext(s, i + |PrintMember(m)|, key, decode))
  {
    hide Print, PrintMember, PrintString, At, JsonOk, AfterWs, EndsScalar, ValueStart, MemberAt;
    MemberAtIs(s, i, m, decode);
  }

  lemma NoneBeforeRest(ms: Members, k: nat, key: string, decode: Decoder)
    requires ms.MoreMembers? && 0 < k && NoneBefore(Flat(ms), k, key, decode)
    ensures NoneBefore(Flat(ms.rest), k - 1, key, decode)
    ensures decode(PrintString(ms.member.key)).Some? && decode(PrintString(ms.member.key)).value != key
    ensures |Flat(ms)| == |Flat(ms.rest)| + 1 && Flat(ms)[1..] == Flat(ms.rest)
  {
    hide PrintString;
    assert Flat(ms)[0] == ms.member;
    forall n | 0 <= n < k - 1
      ensures var found := decode(PrintString(Flat(ms.rest)[n].key)); found.Some? && found.value != key
    {
      assert Flat(ms)[n + 1] == Flat(ms.rest)[n];
    }
  }

  /** Where the key of member `k` starts in the printed members. */
  function KeyOffset(ms: Members, k: nat): nat
    requires k < |Flat(ms)|
  {
    match ms
    case OneMember(_, _) => 0
    case MoreMembers(m, after, before, rest) =>
      if k == 0 then 0 else |PrintMember(m)| + |Between(after, before)| + KeyOffset(rest, k - 1)
  }

  lemma {:induction false} KeyStandsThere(s: string, i: nat, ms: Members, k: nat)
    requires At(s, i, PrintMembers(ms)) && k < |Flat(ms)|
    ensures At(s, i + KeyOffset(ms, k), PrintString(Flat(ms)[k].key))
    decreases ms
  {
    hide Print, PrintMembers, PrintMember, PrintString, At, Between;
    MembersParts(s, i, ms);
    if k == 0 {
      MemberParts(s, i, ms.member);
    } else {
      KeyStandsThere(s, i + |PrintMember(ms.member)| + |Between(ms.after, ms.before)|, ms.rest, k - 1);
    }
  }

  /**
   * The member search over printed members: the first key that decodes to `key` gives its value's text; when none
   * does the answer is that there is none; a key that does not decode is refused where it stands.
   */
  lemma {:induction false} MembersAreSearched(s: string, i: nat, ms: Members, k: nat, key: string, decode: Decoder)
    requires MembersOk(ms) && At(s, i, PrintMembers(ms)) && CharAt(s, i + |PrintMembers(ms)|, '}')
    requires NoneBefore(Flat(ms), k, key, decode)
    ensures k == |Flat(ms)| ==> MemberFrom(s, i, key, decode) == Ok(None)
    ensures k < |Flat(ms)| && decode(PrintString(Flat(ms)[k].key)) == Some(key) ==>
              MemberFrom(s, i, key, decode) == Ok(Some(Print(Flat(ms)[k].value)))
    ensures k < |Flat(ms)| && decode(PrintString(Flat(ms)[k].key)) == None ==>
              MemberFrom(s, i, key, decode) == Err(ParseError(AValidKey, i + KeyOffset(ms, k)))
    decreases ms
  {
    hide Print, PrintMembers, PrintMember, PrintString, At, Between, JsonOk, AfterWs, EndsScalar, MemberFrom;
    MembersParts(s, i, ms);
    var j := i + |PrintMember(ms.member)|;
    assert Flat(ms)[0] == ms.member;
    match ms
    case OneMember(m, after) =>
      EndsWithBracket(s, j, after, '}');
      MemberStep(s, i, m, key, decode);
    case MoreMembers(m, after, before, rest) =>
      var next := j + |Between(after, before)|;
      MembersStart(s, next, rest);
      BetweenIsSkipped(s, j, after, before, '"');
      MemberStep(s, i, m, key, decode);
      if k > 0 {
        NoneBeforeRest(ms, k, key, decode);
        hide NoneBefore;
        MembersAreSearched(s, next, rest, k - 1, key, decode);
        assert k < |Flat(ms)| ==> Flat(ms)[k] == Flat(ms)[1..][k - 1];
      }
  }

  lemma MembersStart(s: string, i: nat, ms: Members)
    requires At(s, i, PrintMembers(ms))
    ensures CharAt(s, i, '"')
  {
    MembersParts(s, i, ms);
    MemberParts(s, i, ms.member);
    AtFirst(s, i, PrintString(ms.member.key));
  }

  lemma KeyIsRead(s: string, i: nat, m: Member)
    requires At(s, i, PrintMember(m))
    ensures i < |s| && i + |PrintString(m.key)| <= |s|
    ensures StringEnd(s, i) == Ok(i + |PrintString(m.key)|) && s[i..i + |PrintString(m.key)|] == PrintString(m.key)
  {
    MemberParts(s, i, m);
    StringIsScanned(s, i, m.key);
  }

  /** Where the value of a printed member starts. */
  function ValueStart(i: nat, m: Member): nat {
    i + |PrintString(m.key)| + |Colon(m.beforeColon, m.afterColon)|
  }

  lemma ValueIsRead(s: string, i: nat, m: Member)
    requires JsonOk(m.value) && At(s, i, PrintMember(m))
    requires var j := i + |PrintMember(m)|; j == |s| || EndsScalar(s[j])
    ensures ValueStart(i, m) + |Print(m.value)| == i + |PrintMember(m)| <= |s|
    ensures ValueEnd(s, ValueStart(i, m)) == Ok(i + |PrintMember(m)|)
    ensures s[ValueStart(i, m)..i + |PrintMember(m)|] == Print(m.value)
  {
    hide Print, PrintMember, PrintString, At, Colon, JsonOk, ValueEnd, EndsScalar;
    MemberParts(s, i, m);
    ValueIsScanned(s, ValueStart(i, m), m.value);
    SpanIs(s, ValueStart(i, m), Print(m.value));
  }

  lemma ColonIsRead(s: string, i: nat, m: Member)
    requires JsonOk(m.value) && At(s, i, PrintMember(m))
    ensures CharAt(s, AfterWs(s, i + |PrintString(m.key)|), ':')
    ensures AfterWs(s, AfterWs(s, i + |PrintString(m.key)|) + 1) == ValueStart(i, m)
  {
    hide Print, PrintMember, PrintString, At, Colon, JsonOk, AfterWs, EndsScalar, IsWs;
    MemberParts(s, i, m);
    ValueStarts(s, ValueStart(i, m), m.value);
    ColonIsSkipped(s, i + |PrintString(m.key)|, m.beforeColon, m.afterColon, s[ValueStart(i, m)]);
  }

  lemma ValueStarts(s: string, i: nat, v: Json)
    requires JsonOk(v) && At(s, i, Print(v))
    ensures i < |s| && !IsWs(s[i]) && !EndsScalar(s[i])
  {
    hide Print, At, JsonOk;
    PrintStarts(v);
    AtFirst(s, i, Print(v));
  }

  lemma ObjectIsSearched(s: string, i: nat, v: Json, key: string, decode: Decoder)
    requires JsonOk(v) && v.Obj? && AfterWs(s, 0) == i && At(s, i, Print(v))
    ensures MemberText(s, key, decode) == MemberFrom(s, i + 1 + |v.lead|, key, decode)
    ensures At(s, i + 1 + |v.lead|, PrintMembers(v.members))
    ensures CharAt(s, i + 1 + |v.lead| + |PrintMembers(v.members)|, '}')
  {
    hide Print, PrintMembers, At, JsonOk, MemberFrom, AfterWs;
    ContainerParts(s, i, v);
    AtParts(s, i + 1, v.lead, PrintMembers(v.members));
    MembersStart(s, i + 1 + |v.lead|, v.members);
    WsThen(s, i + 1, v.lead, '"');
  }

  /**
   * The member reader inverts printing: for every object text of the grammar it returns the text of the first
   * top-level member whose key decodes to `key`, never a nested one, and nothing exactly when no top-level key does.
   * A key that does not decode is an error at the place where that key stands.
   */
  lemma RawMemberInvertsPrinting(lead: Ws, v: Json, trail: string, k: nat, key: string, decode: Decoder)
    requires JsonOk(v) && v.Obj? && NoneBefore(Flat(v.members), k, key, decode)
    ensures var r, flat := MemberText(lead + Print(v) + trail, key, decode), Flat(v.members);
            && (k == |flat| ==> r == Ok(None))
            && (k < |flat| && decode(PrintString(flat[k].key)) == Some(key) ==> r == Ok(Some(Print(flat[k].value))))
            && (k < |flat| && decode(PrintString(flat[k].key)) == None ==>
                  var at := |lead| + 1 + |v.lead| + KeyOffset(v.members, k);
                  r == Err(ParseError(AValidKey, at)) && At(lead + Print(v) + trail, at, PrintString(flat[k].key)))
  {
    hide Print, PrintMembers, PrintString, At, NoneBefore, MemberText, MemberFrom, Flat, AfterWs, KeyOffset;
    var s := lead + Print(v) + trail;
    Placed(lead, v, trail);
    ObjectIsSearched(s, |lead|, v, key, decode);
    MembersAreSearched(s, |lead| + 1 + |v.lead|, v.members, k, key, decode);
    if k < |Flat(v.members)| {
      KeyStandsThere(s, |lead| + 1 + |v.lead|, v.members, k);
    }
  }

  lemma EmptyObjectHasNoMember(lead: Ws, v: Json, trail: string, key: string, decode: Decoder)
    requires v.EmptyObj?
    ensures MemberText(lead + Print(v) + trail, key, decode) == Ok(None)
  {
    var s := lead + Print(v) + trail;
    Placed(lead, v, trail);
    hide Print, At, MemberFrom;
    ContainerParts(s, |lead|, v);
    hide AfterWs;
    WsThen(s, |lead| + 1, v.inner, '}');
  }

  /**
   * Reading a record: for an array of objects, taking the elements and then a member of one of them gives the bytes of
   * that member's value exactly as they stood in the array's text.
   */
  lemma MemberBytesAreKept(
    lead: Ws, v: Json, trail: string, n: nat, k: nat, key: string, decode: Decoder)
    requires JsonOk(v) && v.Arr? && n < |Values(v.elements)| && Values(v.elements)[n].Obj?
    requires var flat := Flat(Values(v.elements)[n].members);
             NoneBefore(flat, k, key, decode) && k < |flat| && decode(PrintString(flat[k].key)) == Some(key)
    ensures var r := ArrayTexts(lead + Print(v) + trail);
            && r.Ok? && n < |r.value|
            && MemberText(r.value[n], key, decode) == Ok(Some(Print(Flat(Values(v.elements)[n].members)[k].value)))
  {
    SplitInvertsPrinting(lead, v, trail);
    assert ElementTexts(v) == Texts(v.elements);
    var o := Values(v.elements)[n];
    hide Print, ArrayTexts, MemberText, Flat, Values;
    RawMemberInvertsPrinting("", o, "", k, key, decode);
    assert "" + Print(o) + "" == Print(o);
  }

  // --- Repeated members --------------------------------------------------------------------------

  predicate AllDecode(flat: seq<Member>, decode: Decoder) {
    forall j :: 0 <= j < |flat| ==> decode(PrintString(flat[j].key)).Some?
  }

  predicate IsNamed(m: Member, key: string, decode: Decoder) {
    decode(PrintString(m.key)) == Some(key)
  }

  /** What the platform's parser keeps under `key`: the value of the last member so named. */
  function Parsed(flat: seq<Member>, key: string, decode: Decoder): Option<Json> {
    if flat == [] then None
    else
      var m := flat[|flat| - 1];
      if IsNamed(m, key, decode) then Some(m.value) else Parsed(flat[..|flat| - 1], key, decode)
  }

  /** The first member so named, which is the one the member reader takes, or `|flat|`. */
  function FirstNamed(flat: seq<Member>, key: string, decode: Decoder): (k: nat)
    ensures k <= |flat| && (k < |flat| ==> IsNamed(flat[k], key, decode))
    ensures forall j :: 0 <= j < k ==> !IsNamed(flat[j], key, decode)
  {
    if flat == [] then 0
    else if IsNamed(flat[0], key, decode) then 0
    else 1 + FirstNamed(flat[1..], key, decode)
  }

  lemma {:induction false} ParsedIsLast(flat: seq<Member>, key: string, decode: Decoder)
    ensures Parsed(flat, key, decode) == None ==> forall j :: 0 <= j < |flat| ==> !IsNamed(flat[j], key, decode)
    ensures Parsed(flat, key, decode).Some? ==>
              exists l ::
                && 0 <= l < |flat| && IsNamed(flat[l], key, decode) && flat[l].value == Parsed(flat, key, decode).value
                && forall j :: l < j < |flat| ==> !IsNamed(flat[j], key, decode)
    decreases |flat|
  {
    hide IsNamed;
    if flat != [] {
      var n := |flat| - 1;
      if IsNamed(flat[n], key, decode) {
        assert flat[n].value == Parsed(flat, key, decode).value;
      } else {
        ParsedIsLast(flat[..n], key, decode);
        assert forall j :: 0 <= j < n ==> flat[..n][j] == flat[j];
      }
    }
  }

  /**
   * An event's metadata is shown as the platform's parser has it and hashed as the member reader has it. What is hashed
   * is the text of what is shown exactly when the first and the last member of that name have one and the same text;
   * so it is whenever no two members have that name.
   */
  lemma ShownIsHashedExactlyWhen(lead: Ws, v: Json, trail: string, key: string, decode: Decoder)
    requires JsonOk(v) && v.Obj? && AllDecode(Flat(v.members), decode)
    ensures var flat := Flat(v.members);
            var shown, k := Parsed(flat, key, decode), FirstNamed(flat, key, decode);
            var hashed := MemberText(lead + Print(v) + trail, key, decode);
            && hashed == Ok(if k < |flat| then Some(Print(flat[k].value)) else None)
            && (shown.Some? <==> k < |flat|)
            && (hashed == Ok(if shown.Some? then Some(Print(shown.value)) else None)
                <==> (k < |flat| ==> Print(flat[k].value) == Print(shown.value)))
            && ((forall i, j :: 0 <= i < j < |flat| && IsNamed(flat[i], key, decode) ==> !IsNamed(flat[j], key, decode))
                ==> hashed == Ok(if shown.Some? then Some(Print(shown.value)) else None))
  {
    hide Print, MemberText, Flat, PrintString, At, KeyOffset, Parsed;
    var flat := Flat(v.members);
    var k := FirstNamed(flat, key, decode);
    assert forall j :: 0 <= j < k ==> !IsNamed(flat[j], key, decode);
    RawMemberInvertsPrinting(lead, v, trail, k, key, decode);
    ParsedIsLast(flat, key, decode);
  }

  lemma TwoMembers(m: Member, l: Member)
    requires JsonOk(m.value) && JsonOk(l.value)
    ensures var ms := MoreMembers(m, "", "", OneMember(l, ""));
            && JsonOk(Obj("", ms)) && Flat(ms) == [m, l]
            && Print(Obj("", ms)) == "{" + PrintMember(m) + "," + PrintMember(l) + "}"
  {
    hide PrintMember, Print;
    var last := OneMember(l, "");
    assert MembersOk(last) && Flat(last) == [l];
    PrintTwo(m, l);
  }

  lemma PrintTwo(m: Member, l: Member)
    ensures Print(Obj("", MoreMembers(m, "", "", OneMember(l, "")))) == "{" + PrintMember(m) + "," + PrintMember(l)
              + "}"
  {
    hide PrintMember;
    var last := OneMember(l, "");
    assert PrintMembers(last) == PrintMember(l) && Between("", "") == ",";
    assert PrintMembers(MoreMembers(m, "", "", last)) == PrintMember(m) + ("," + PrintMember(l));
  }

  /** Two members of one name: the second value is shown and the first is hashed. */
  lemma RepeatedMemberSplits(us: Chars, key: string, decode: Decoder, a: Json, b: Json)
    requires JsonOk(a) && JsonOk(b) && decode(PrintString(us)) == Some(key)
    ensures var v := Obj("", MoreMembers(Member(us, "", "", a), "", "", OneMember(Member(us, "", "", b), "")));
            && Print(v) == "{" + (PrintString(us) + ":" + Print(a)) + "," + (PrintString(us) + ":" + Print(b)) + "}"
            && Parsed(Flat(v.members), key, decode) == Some(b)
            && MemberText(Print(v), key, decode) == Ok(Some(Print(a)))
  {
    hide PrintString, MemberText, Print, PrintMember, PrintMembers, Flat, At, KeyOffset, JsonOk;
    var m, l := Member(us, "", "", a), Member(us, "", "", b);
    var v := Obj("", MoreMembers(m, "", "", OneMember(l, "")));
    TwoMembers(m, l);
    RawMemberInvertsPrinting("", v, "", 0, key, decode);
    assert "" + Print(v) + "" == Print(v);
    BareMember(us, a);
    BareMember(us, b);
    assert IsNamed(l, key, decode) && Flat(v.members)[1] == l;
  }

  lemma BareMember(us: Chars, v: Json)
    ensures PrintMember(Member(us, "", "", v)) == PrintString(us) + ":" + Print(v)
  {
    hide PrintString, Print;
  }

  // --- A text of every kind --------------------------------------------------------------------------

  function SampleKey(): Chars {
    [Plain('k'), Hex('0', '0', 'e', '9'), Escape('"')]
  }

  function SampleArray(): Json {
    Arr("", More(Num(Number(true, "10", ".5", Exponent('e', "+", "7"))), "\r", "", One(EmptyObj(""), "")))
  }

  /** An object with escapes in a key, a number in all its parts, nesting and every kind of space, as a derivation. */
  function Sample(): Json {
    Obj(" ", OneMember(Member(SampleKey(), "\t", "\n", SampleArray()), ""))
  }

  lemma SampleKeyPrints()
    ensures PrintString(SampleKey()) == "\"k\\u00e9\\\"\""
  {
    var us := SampleKey();
    var two: Chars := [Hex('0', '0', 'e', '9'), Escape('"')];
    var one: Chars := [Escape('"')];
    assert us[1..] == two && two[1..] == one && one[1..] == [];
    assert PrintUnits(one) == "\\\"" && PrintUnits(two) == "\\u00e9" + PrintUnits(one);
  }

  lemma SampleArrayPrints()
    ensures JsonOk(SampleArray()) && Print(SampleArray()) == "[-10.5e+7\r,{}]"
  {
    var n := Number(true, "10", ".5", Exponent('e', "+", "7"));
    var last := One(EmptyObj(""), "");
    assert NumberOk(n) && PrintNumber(n) == "-10.5e+7";
    assert ElementsOk(last) && PrintElements(last) == "{}" && Between("\r", "") == "\r,";
    assert PrintElements(More(Num(n), "\r", "", last)) == "-10.5e+7" + ("\r," + "{}");
  }

  lemma PrintOnly(lead: Ws, us: Chars, before: Ws, after: Ws, v: Json)
    requires JsonOk(v)
    ensures var o := Obj(lead, OneMember(Member(us, before, after, v), ""));
            JsonOk(o) && Print(o) == "{" + lead + PrintString(us) + before + ":" + after + Print(v) + "}"
  {
    hide PrintString;
    var ms := OneMember(Member(us, before, after, v), "");
    assert PrintMembers(ms) == PrintString(us) + (before + ":" + after + Print(v)) + "";
  }

  /** Texts like this one are among those the theorems are about. */
  lemma SampleIsJson()
    ensures JsonOk(Sample()) && Print(Sample()) == "{" + " " + "\"k\\u00e9\\\"\"" + "\t" + ":" + "\n"
              + "[-10.5e+7\r,{}]" + "}"
  {
    hide PrintString, SampleKey, SampleArray, JsonOk, Print;
    SampleKeyPrints();
    SampleArrayPrints();
    PrintOnly(" ", SampleKey(), "\t", "\n", SampleArray());
  }

  // --- Any text at all ---------------------------------------------------------------------------

  /** `mark` with nothing but whitespace around it. */
  ghost predicate IsGap(gap: string, mark: char) {
    exists k :: 0 <= k < |gap| && gap[k] == mark && AllWs(gap[..k]) && AllWs(gap[k + 1..])
  }

  predicate AllWs(w: string) {
    forall i :: 0 <= i < |w| ==> IsWs(w[i])
  }

  function Weave(texts: seq<string>, gaps: seq<string>): string
    requires |texts| == |gaps|
  {
    if texts == [] then "" else texts[0] + gaps[0] + Weave(texts[1..], gaps[1..])
  }

  lemma {:induction false} SkippedIsWs(s: string, i: nat)
    requires i <= |s|
    ensures AllWs(s[i..AfterWs(s, i)])
    decreases |s| - i
  {
    if i < |s| && IsWs(s[i]) {
      SkippedIsWs(s, i + 1);
      assert s[i..AfterWs(s, i)] == [s[i]] + s[i + 1..AfterWs(s, i + 1)];
    }
  }

  lemma MarkedGap(s: string, i: nat, k: nat, end: nat, mark: char)
    requires i <= k < end <= |s| && s[k] == mark
    requires AllWs(s[i..k])
    ensures AllWs(s[k + 1..end]) ==> IsGap(s[i..end], mark)
    ensures end == k + 1 ==> IsGap(s[i..end], mark)
  {
    var gap := s[i..end];
    assert gap[k - i] == mark && gap[..k - i] == s[i..k];
    assert gap[k - i + 1..] == s[k + 1..end];
  }

  lemma GapIs(s: string, i: nat, mark: char)
    requires i <= |s| && CharAt(s, AfterWs(s, i), mark)
    ensures var k := AfterWs(s, i); IsGap(s[i..k + 1], mark) && IsGap(s[i..AfterWs(s, k + 1)], mark)
  {
    var k := AfterWs(s, i);
    SkippedIsWs(s, i);
    SkippedIsWs(s, k + 1);
    hide AfterWs, AllWs;
    MarkedGap(s, i, k, k + 1, mark);
    MarkedGap(s, i, k, AfterWs(s, k + 1), mark);
  }

  /** Whatever the elements are, nothing but whitespace and one comma between two of them is left out. */
  lemma {:induction false} NothingIsDropped(s: string, i: nat, texts: seq<string>) returns (gaps: seq<string>, end: nat)
    requires ElementsFrom(s, i) == Ok(texts)
    ensures i <= end <= |s| && |gaps| == |texts| >= 1
    ensures s[i..end] == Weave(texts, gaps)
    ensures forall k :: 0 <= k < |texts| ==> texts[k] != ""
    ensures forall k :: 0 <= k < |gaps| ==> IsGap(gaps[k], if k < |gaps| - 1 then ',' else ']')
    decreases |s| - i
  {
    hide ValueEnd, AfterWs, IsGap;
    var spanEnd := ValueEnd(s, i).value;
    var j := AfterWs(s, spanEnd);
    var rest := [];
    if CharAt(s, j, ',') {
      GapIs(s, spanEnd, ',');
      var next := AfterWs(s, j + 1);
      rest, end := NothingIsDropped(s, next, texts[1..]);
      gaps := [s[spanEnd..next]] + rest;
      assert s[i..end] == s[i..spanEnd] + s[spanEnd..next] + s[next..end];
    } else {
      GapIs(s, spanEnd, ']');
      end := j + 1;
      gaps := [s[spanEnd..end]];
      assert s[i..end] == s[i..spanEnd] + s[spanEnd..end];
      assert Weave(texts[1..], gaps[1..]) == "";
    }
  }
}

/** SQL search conditions as ISO/IEC 9075:1992 reads them: character literals (section 5.3),
    the grammar in which NOT binds tighter than AND and AND tighter than OR (section 8.12),
    and the predicates Infinity offers over a JSON column. */
module SqlCondition {
  import opened Text
  import opened PyValues

  datatype Token = Word(w: string) | Number(digits: string) | Literal(s: string) | Symbol(sym: string)

  datatype Pred =
    | JsonContains(path: string, arg: Token)
    | StringTest(path: string, op: string, text: string)
    | StringLike(path: string, pattern: string)
    | NumberTest(path: string, op: string, bound: Token)

  datatype Factor = Atom(p: Pred) | NotAtom(p: Pred) | Group(inner: OrList)
  datatype AndList = OneFactor(f: Factor) | AndAlso(f: Factor, rest: AndList)
  datatype OrList = OneTerm(t: AndList) | OrElse(t: AndList, rest: OrList)

  // ---- meaning ----

  predicate HoldsFactor(f: Factor, v: Pred -> bool) {
    match f
    case Atom(p) => v(p)
    case NotAtom(p) => !v(p)
    case Group(inner) => HoldsOr(inner, v)
  }

  predicate HoldsAnd(a: AndList, v: Pred -> bool) {
    match a
    case OneFactor(f) => HoldsFactor(f, v)
    case AndAlso(f, rest) => HoldsFactor(f, v) && HoldsAnd(rest, v)
  }

  predicate HoldsOr(o: OrList, v: Pred -> bool) {
    match o
    case OneTerm(t) => HoldsAnd(t, v)
    case OrElse(t, rest) => HoldsAnd(t, v) || HoldsOr(rest, v)
  }

  // ---- lexical level ----

  predicate IsLetter(c: char) {
    'a' <= c <= 'z' || 'A' <= c <= 'Z' || c == '_'
  }

  predicate IsWordChar(c: char) {
    IsLetter(c) || IsDigit(c)
  }

  function WordRun(s: string): (n: nat)
    ensures n <= |s|
  {
    if s != "" && IsWordChar(s[0]) then 1 + WordRun(s[1..]) else 0
  }

  function DigitRun(s: string): (n: nat)
    ensures n <= |s|
  {
    if s != "" && IsDigit(s[0]) then 1 + DigitRun(s[1..]) else 0
  }

  /** The body of a character literal and what follows its closing quote; a doubled quote is
      one quote. */
  function ReadLiteral(s: string): (r: Option<(string, string)>)
    ensures r.Some? ==> |r.value.1| < |s|
  {
    if s == "" then None
    else if s[0] == '\'' && (|s| == 1 || s[1] != '\'') then Some(("", s[1..]))
    else
      var skip := if s[0] == '\'' then 2 else 1;
      match ReadLiteral(s[skip..])
      case None => None
      case Some((body, rest)) => Some(([s[0]] + body, rest))
  }

  function SymbolAt(s: string): string
    requires s != ""
  {
    if |s| >= 2 && s[..2] in {"!=", "<=", ">="} then s[..2]
    else if s[0] in {'(', ')', ',', '=', '<', '>'} then s[..1]
    else ""
  }

  function Prepend(ts: seq<Token>, rest: Option<seq<Token>>): Option<seq<Token>> {
    if rest.Some? then Some(ts + rest.value) else None
  }

  function Lex(s: string): Option<seq<Token>>
    decreases |s|
  {
    if s == "" then Some([])
    else if s[0] == ' ' then Lex(s[1..])
    else if s[0] == '\'' then
      match ReadLiteral(s[1..])
      case None => None
      case Some((body, rest)) => Prepend([Literal(body)], Lex(rest))
    else if IsLetter(s[0]) then
      var n := WordRun(s);
      Prepend([Word(s[..n])], Lex(s[n..]))
    else if IsDigit(s[0]) || s[0] == '-' then
      var n := 1 + DigitRun(s[1..]);
      Prepend([Number(s[..n])], Lex(s[n..]))
    else
      var sym := SymbolAt(s);
      if sym == "" then None else Prepend([Symbol(sym)], Lex(s[|sym|..]))
  }

  // ---- parsing ----

  predicate IsScalar(t: Token) {
    t.Literal? || t.Number? || t == Word("True") || t == Word("False")
  }

  predicate IsTestOp(t: Token) {
    t.Symbol? && t.sym in {"=", "!=", "<", "<=", ">", ">="}
  }

  function ParsePred(ts: seq<Token>): (r: Option<(Pred, seq<Token>)>)
    ensures r.Some? ==> |r.value.1| < |ts|
  {
    if |ts| < 8 || ts[1] != Symbol("(") || ts[2] != Word("meta_fields") || ts[3] != Symbol(",")
       || !ts[4].Literal?
    then None
    else if ts[0] == Word("JSON_CONTAINS") && ts[5] == Symbol(",") && IsScalar(ts[6]) && ts[7] == Symbol(")")
    then Some((JsonContains(ts[4].s, ts[6]), ts[8..]))
    else if ts[5] != Symbol(")") then None
    else if ts[0] == Word("JSON_EXTRACT_STRING") && IsTestOp(ts[6]) && ts[7].Literal?
    then Some((StringTest(ts[4].s, ts[6].sym, ts[7].s), ts[8..]))
    else if ts[0] == Word("JSON_EXTRACT_STRING") && ts[6] == Word("LIKE") && ts[7].Literal?
    then Some((StringLike(ts[4].s, ts[7].s), ts[8..]))
    else if ts[0] == Word("JSON_EXTRACT_DOUBLE") && IsTestOp(ts[6]) && IsScalar(ts[7])
    then Some((NumberTest(ts[4].s, ts[6].sym, ts[7]), ts[8..]))
    else None
  }

  function ParseFactor(ts: seq<Token>): (r: Option<(Factor, seq<Token>)>)
    ensures r.Some? ==> |r.value.1| < |ts|
    decreases |ts|, 0
  {
    if ts == [] then None
    else if ts[0] == Symbol("(") then
      match ParseOr(ts[1..])
      case Some((inner, rest)) =>
        if rest != [] && rest[0] == Symbol(")") then Some((Group(inner), rest[1..])) else None
      case None => None
    else if ts[0] == Word("NOT") then
      match ParsePred(ts[1..])
      case Some((p, rest)) => Some((NotAtom(p), rest))
      case None => None
    else
      match ParsePred(ts)
      case Some((p, rest)) => Some((Atom(p), rest))
      case None => None
  }

  function ParseAnd(ts: seq<Token>): (r: Option<(AndList, seq<Token>)>)
    ensures r.Some? ==> |r.value.1| < |ts|
    decreases |ts|, 1
  {
    match ParseFactor(ts)
    case None => None
    case Some((f, rest)) =>
      if rest == [] || rest[0] != Word("AND") then Some((OneFactor(f), rest))
      else
        match ParseAnd(rest[1..])
        case None => None
        case Some((more, rest')) => Some((AndAlso(f, more), rest'))
  }

  function ParseOr(ts: seq<Token>): (r: Option<(OrList, seq<Token>)>)
    ensures r.Some? ==> |r.value.1| < |ts|
    decreases |ts|, 2
  {
    match ParseAnd(ts)
    case None => None
    case Some((t, rest)) =>
      if rest == [] || rest[0] != Word("OR") then Some((OneTerm(t), rest))
      else
        match ParseOr(rest[1..])
        case None => None
        case Some((more, rest')) => Some((OrElse(t, more), rest'))
  }

  /** A text as a complete search condition. */
  function ReadCondition(s: string): Option<OrList> {
    match Lex(s)
    case None => None
    case Some(ts) =>
      match ParseOr(ts)
      case Some((o, rest)) => if rest == [] then Some(o) else None
      case None => None
  }

  // ---- printing ----

  /** `s.replace("'", "''")` */
  function QuoteText(s: string): string {
    ReplaceChar(s, '\'', "''")
  }

  function PrintToken(t: Token): string {
    match t
    case Word(w) => w
    case Number(d) => d
    case Literal(s) => "'" + QuoteText(s) + "'"
    case Symbol(sym) => sym
  }

  function PrintPred(p: Pred): string {
    match p
    case JsonContains(path, arg) =>
      "JSON_CONTAINS(meta_fields, " + PrintToken(Literal(path)) + ", " + PrintToken(arg) + ")"
    case StringTest(path, op, text) =>
      "JSON_EXTRACT_STRING(meta_fields, " + PrintToken(Literal(path)) + ") " + op + " " + PrintToken(Literal(text))
    case StringLike(path, pattern) =>
      "JSON_EXTRACT_STRING(meta_fields, " + PrintToken(Literal(path)) + ") LIKE " + PrintToken(Literal(pattern))
    case NumberTest(path, op, bound) =>
      "JSON_EXTRACT_DOUBLE(meta_fields, " + PrintToken(Literal(path)) + ") " + op + " " + PrintToken(bound)
  }

  function PrintFactor(f: Factor): string {
    match f
    case Atom(p) => PrintPred(p)
    case NotAtom(p) => "NOT " + PrintPred(p)
    case Group(inner) => "(" + PrintOr(inner) + ")"
  }

  function PrintAnd(a: AndList): string {
    match a
    case OneFactor(f) => PrintFactor(f)
    case AndAlso(f, rest) => PrintFactor(f) + " AND " + PrintAnd(rest)
  }

  function PrintOr(o: OrList): string {
    match o
    case OneTerm(t) => PrintAnd(t)
    case OrElse(t, rest) => PrintAnd(t) + " OR " + PrintOr(rest)
  }

  // ---- what the predicates must look like to be read back ----

  predicate IsNumberText(d: string) {
    d != "" && (IsDigit(d[0]) || d[0] == '-') && forall i | 1 <= i < |d| :: IsDigit(d[i])
  }

  predicate Readable(t: Token) {
    match t
    case Literal(_) => true
    case Number(d) => IsNumberText(d)
    case Word(w) => w == "True" || w == "False"
    case Symbol(_) => false
  }

  predicate ReadablePred(p: Pred) {
    match p
    case JsonContains(_, arg) => Readable(arg)
    case StringTest(_, op, _) => op in {"=", "!=", "<", "<=", ">", ">="}
    case StringLike(_, _) => true
    case NumberTest(_, op, bound) => op in {"=", "!=", "<", "<=", ">", ">="} && Readable(bound)
  }

  predicate ReadableFactor(f: Factor) {
    match f
    case Atom(p) => ReadablePred(p)
    case NotAtom(p) => ReadablePred(p)
    case Group(inner) => ReadableOr(inner)
  }

  predicate ReadableAnd(a: AndList) {
    match a
    case OneFactor(f) => ReadableFactor(f)
    case AndAlso(f, rest) => ReadableFactor(f) && ReadableAnd(rest)
  }

  predicate ReadableOr(o: OrList) {
    match o
    case OneTerm(t) => ReadableAnd(t)
    case OrElse(t, rest) => ReadableAnd(t) && ReadableOr(rest)
  }

  // ---- tokens of a tree ----

  function TokensOfPred(p: Pred): seq<Token> {
    match p
    case JsonContains(path, arg) =>
      [Word("JSON_CONTAINS"), Symbol("("), Word("meta_fields"), Symbol(","), Literal(path), Symbol(","), arg, Symbol(")")]
    case StringTest(path, op, text) =>
      [Word("JSON_EXTRACT_STRING"), Symbol("("), Word("meta_fields"), Symbol(","), Literal(path), Symbol(")"), Symbol(op), Literal(text)]
    case StringLike(path, pattern) =>
      [Word("JSON_EXTRACT_STRING"), Symbol("("), Word("meta_fields"), Symbol(","), Literal(path), Symbol(")"), Word("LIKE"), Literal(pattern)]
    case NumberTest(path, op, bound) =>
      [Word("JSON_EXTRACT_DOUBLE"), Symbol("("), Word("meta_fields"), Symbol(","), Literal(path), Symbol(")"), Symbol(op), bound]
  }

  function TokensOfFactor(f: Factor): seq<Token> {
    match f
    case Atom(p) => TokensOfPred(p)
    case NotAtom(p) => [Word("NOT")] + TokensOfPred(p)
    case Group(inner) => [Symbol("(")] + TokensOfOr(inner) + [Symbol(")")]
  }

  function TokensOfAnd(a: AndList): seq<Token> {
    match a
    case OneFactor(f) => TokensOfFactor(f)
    case AndAlso(f, rest) => TokensOfFactor(f) + [Word("AND")] + TokensOfAnd(rest)
  }

  function TokensOfOr(o: OrList): seq<Token> {
    match o
    case OneTerm(t) => TokensOfAnd(t)
    case OrElse(t, rest) => TokensOfAnd(t) + [Word("OR")] + TokensOfOr(rest)
  }

  // ---- reading tokens back ----

  lemma ParsePredBack(p: Pred, rest: seq<Token>)
    requires ReadablePred(p)
    ensures ParsePred(TokensOfPred(p) + rest) == Some((p, rest))
  {
    var ts := TokensOfPred(p) + rest;
    assert ts[8..] == rest;
  }

  lemma {:induction false} ParseFactorBack(f: Factor, rest: seq<Token>)
    requires ReadableFactor(f)
    ensures ParseFactor(TokensOfFactor(f) + rest) == Some((f, rest))
  {
    var ts := TokensOfFactor(f) + rest;
    match f
    case Atom(p) =>
      ParsePredBack(p, rest);
    case NotAtom(p) =>
      assert ts[1..] == TokensOfPred(p) + rest;
      ParsePredBack(p, rest);
    case Group(inner) =>
      assert ts[1..] == TokensOfOr(inner) + ([Symbol(")")] + rest);
      ParseOrBack(inner, [Symbol(")")] + rest);
  }

  lemma {:induction false} ParseAndBack(a: AndList, rest: seq<Token>)
    requires ReadableAnd(a)
    requires rest == [] || rest[0] != Word("AND")
    ensures ParseAnd(TokensOfAnd(a) + rest) == Some((a, rest))
  {
    match a
    case OneFactor(f) => ParseFactorBack(f, rest);
    case AndAlso(f, more) =>
      var tail := [Word("AND")] + (TokensOfAnd(more) + rest);
      assert TokensOfAnd(a) + rest == TokensOfFactor(f) + tail;
      ParseFactorBack(f, tail);
      assert tail[1..] == TokensOfAnd(more) + rest;
      ParseAndBack(more, rest);
  }

  lemma {:induction false} ParseOrBack(o: OrList, rest: seq<Token>)
    requires ReadableOr(o)
    requires rest == [] || rest[0] !in {Word("AND"), Word("OR")}
    ensures ParseOr(TokensOfOr(o) + rest) == Some((o, rest))
  {
    match o
    case OneTerm(t) => ParseAndBack(t, rest);
    case OrElse(t, more) =>
      var tail := [Word("OR")] + (TokensOfOr(more) + rest);
      assert TokensOfOr(o) + rest == TokensOfAnd(t) + tail;
      ParseAndBack(t, tail);
      assert tail[1..] == TokensOfOr(more) + rest;
      ParseOrBack(more, rest);
  }

  // ---- reading characters back ----

  lemma PrependTwice(a: seq<Token>, b: seq<Token>, both: seq<Token>, rest: Option<seq<Token>>)
    requires both == a + b
    ensures Prepend(a, Prepend(b, rest)) == Prepend(both, rest)
  {
    if rest.Some? {
      assert a + (b + rest.value) == both + rest.value;
    }
  }

  /** What may follow a token without running into it. */
  predicate Separated(rest: string) {
    rest == "" || (!IsWordChar(rest[0]) && rest[0] != '\'' && rest[0] != '=')
  }

  lemma {:induction false} WordRunStops(w: string, rest: string)
    requires forall i | 0 <= i < |w| :: IsWordChar(w[i])
    requires Separated(rest)
    ensures WordRun(w + rest) == |w|
  {
    if w != "" {
      assert (w + rest)[1..] == w[1..] + rest;
      WordRunStops(w[1..], rest);
    }
  }

  lemma {:induction false} DigitRunStops(w: string, rest: string)
    requires forall i | 0 <= i < |w| :: IsDigit(w[i])
    requires Separated(rest)
    ensures DigitRun(w + rest) == |w|
  {
    if w != "" {
      assert (w + rest)[1..] == w[1..] + rest;
      DigitRunStops(w[1..], rest);
    }
  }

  lemma LexWord(w: string, rest: string)
    requires w != "" && IsLetter(w[0]) && forall i | 0 <= i < |w| :: IsWordChar(w[i])
    requires Separated(rest)
    ensures Lex(w + rest) == Prepend([Word(w)], Lex(rest))
  {
    WordRunStops(w, rest);
    assert (w + rest)[..|w|] == w && (w + rest)[|w|..] == rest;
  }

  lemma LexNumber(d: string, rest: string)
    requires IsNumberText(d) && Separated(rest)
    ensures Lex(d + rest) == Prepend([Number(d)], Lex(rest))
  {
    DigitRunStops(d[1..], rest);
    assert (d + rest)[1..] == d[1..] + rest;
    assert (d + rest)[..|d|] == d && (d + rest)[|d|..] == rest;
  }

  /** Reading a literal undoes the doubling of quotes. */
  lemma {:induction false} ReadLiteralBack(s: string, rest: string)
    requires Separated(rest)
    ensures ReadLiteral(QuoteText(s) + "'" + rest) == Some((s, rest))
  {
    var text := QuoteText(s) + "'" + rest;
    if s == "" {
      assert text == "'" + rest && text[1..] == rest;
    } else {
      var skip := if s[0] == '\'' then 2 else 1;
      assert text[skip..] == QuoteText(s[1..]) + "'" + rest;
      ReadLiteralBack(s[1..], rest);
      assert s == [s[0]] + s[1..];
    }
  }

  lemma LexLiteral(s: string, rest: string)
    requires Separated(rest)
    ensures Lex(PrintToken(Literal(s)) + rest) == Prepend([Literal(s)], Lex(rest))
  {
    var text := PrintToken(Literal(s)) + rest;
    assert text[1..] == QuoteText(s) + "'" + rest;
    ReadLiteralBack(s, rest);
  }

  lemma LexToken(t: Token, rest: string)
    requires Readable(t) && Separated(rest)
    ensures Lex(PrintToken(t) + rest) == Prepend([t], Lex(rest))
  {
    match t
    case Literal(s) => LexLiteral(s, rest);
    case Number(d) => LexNumber(d, rest);
    case Word(w) => LexWord(w, rest);
  }

  lemma LexSymbol(sym: string, rest: string)
    requires sym in {"(", ")", ",", "=", "!=", "<", "<=", ">", ">="}
    requires sym in {"<", ">"} ==> Separated(rest)
    ensures Lex(sym + rest) == Prepend([Symbol(sym)], Lex(rest))
  {
    var s := sym + rest;
    assert s[|sym|..] == rest && s[..|sym|] == sym;
    SymbolIsRead(sym, rest);
    hide SymbolAt, Separated, Prepend;
  }

  lemma SymbolIsRead(sym: string, rest: string)
    requires sym in {"(", ")", ",", "=", "!=", "<", "<=", ">", ">="}
    requires sym in {"<", ">"} ==> Separated(rest)
    ensures var s := sym + rest;
      SymbolAt(s) == sym && sym != "" && s[0] == sym[0] && s[0] != ' ' && s[0] != '\'' && !IsLetter(s[0]) && !IsDigit(s[0]) && s[0] != '-'
  {
    var s := sym + rest;
    assert s[..|sym|] == sym;
    if |sym| == 1 && |s| >= 2 {
      assert s[..2] == [s[0], s[1]];
      assert s[1] == rest[0];
    }
  }

  lemma LexSpace(rest: string)
    ensures Lex(" " + rest) == Lex(rest)
  {
    assert (" " + rest)[1..] == rest;
  }

  lemma HeadText(name: string, path: string, rest: string)
    ensures name + "(meta_fields, " + path + rest
         == name + ("(" + ("meta_fields" + ("," + (" " + (path + rest)))))
  {
    assert "(meta_fields, " == "(" + "meta_fields" + "," + " ";
  }

  /** "NAME(meta_fields, 'path'" and what follows. */
  lemma LexHead(name: string, path: string, rest: string)
    requires name in {"JSON_CONTAINS", "JSON_EXTRACT_STRING", "JSON_EXTRACT_DOUBLE"}
    requires Separated(rest)
    ensures Lex(name + "(meta_fields, " + PrintToken(Literal(path)) + rest)
         == Prepend(HeadTokens(name, path), Lex(rest))
  {
    hide Lex;
    HeadText(name, PrintToken(Literal(path)), rest);
    var r4 := PrintToken(Literal(path)) + rest;
    var r3 := "," + (" " + r4);
    var r2 := "meta_fields" + r3;
    var r1 := "(" + r2;
    LexWord(name, r1);
    LexSymbol("(", r2);
    LexWord("meta_fields", r3);
    LexSymbol(",", " " + r4);
    LexSpace(r4);
    LexLiteral(path, rest);
    var ts3 := [Symbol(","), Literal(path)];
    var ts2 := [Word("meta_fields"), Symbol(","), Literal(path)];
    var ts1 := [Symbol("("), Word("meta_fields"), Symbol(","), Literal(path)];
    PrependTwice([Symbol(",")], [Literal(path)], ts3, Lex(rest));
    PrependTwice([Word("meta_fields")], ts3, ts2, Lex(rest));
    PrependTwice([Symbol("(")], ts2, ts1, Lex(rest));
    PrependTwice([Word(name)], ts1, HeadTokens(name, path), Lex(rest));
  }

  function HeadTokens(name: string, path: string): seq<Token> {
    [Word(name), Symbol("("), Word("meta_fields"), Symbol(","), Literal(path)]
  }

  lemma ContainsText(path: string, arg: string, rest: string)
    ensures "JSON_CONTAINS(meta_fields, " + path + ", " + arg + ")" + rest
         == "JSON_CONTAINS" + "(meta_fields, " + path + ("," + (" " + (arg + (")" + rest))))
  {
    assert "JSON_CONTAINS(meta_fields, " == "JSON_CONTAINS" + "(meta_fields, ";
    assert ", " == "," + " ";
  }

  lemma LexContains(path: string, arg: Token, rest: string)
    requires Readable(arg) && Separated(rest)
    ensures Lex(PrintPred(JsonContains(path, arg)) + rest)
         == Prepend(TokensOfPred(JsonContains(path, arg)), Lex(rest))
  {
    hide Lex;
    var r2 := ")" + rest;
    var r1 := "," + (" " + (PrintToken(arg) + r2));
    ContainsText(PrintToken(Literal(path)), PrintToken(arg), rest);
    LexHead("JSON_CONTAINS", path, r1);
    LexSymbol(",", " " + (PrintToken(arg) + r2));
    LexSpace(PrintToken(arg) + r2);
    LexToken(arg, r2);
    LexSymbol(")", rest);
    PrependTwice([arg], [Symbol(")")], [arg, Symbol(")")], Lex(rest));
    PrependTwice([Symbol(",")], [arg, Symbol(")")], [Symbol(","), arg, Symbol(")")], Lex(rest));
    PrependTwice(HeadTokens("JSON_CONTAINS", path), [Symbol(","), arg, Symbol(")")],
                 TokensOfPred(JsonContains(path, arg)), Lex(rest));
  }

  /** An extraction followed by an operator and its right side. */
  lemma LexExtract(name: string, path: string, op: Token, bound: Token, rest: string)
    requires name == "JSON_EXTRACT_STRING" || name == "JSON_EXTRACT_DOUBLE"
    requires IsTestOp(op) || op == Word("LIKE")
    requires Readable(bound) && Separated(rest)
    ensures Lex(name + "(meta_fields, " + PrintToken(Literal(path)) + TestTail(op, bound, rest))
         == Prepend(HeadTokens(name, path) + [Symbol(")"), op, bound], Lex(rest))
  {
    hide Lex;
    LexHead(name, path, TestTail(op, bound, rest));
    LexTestTail(op, bound, rest);
    PrependTwice(HeadTokens(name, path), [Symbol(")"), op, bound],
                 HeadTokens(name, path) + [Symbol(")"), op, bound], Lex(rest));
  }

  lemma LexTest(name: string, path: string, op: string, bound: Token, rest: string)
    requires name == "JSON_EXTRACT_STRING" || name == "JSON_EXTRACT_DOUBLE"
    requires IsTestOp(Symbol(op)) && Readable(bound) && Separated(rest)
    ensures Lex(name + "(meta_fields, " + PrintToken(Literal(path)) + ") " + op + " " + PrintToken(bound) + rest)
         == Prepend(HeadTokens(name, path) + [Symbol(")"), Symbol(op), bound], Lex(rest))
  {
    hide Lex;
    LexExtract(name, path, Symbol(op), bound, rest);
    Regroup(name + "(meta_fields, " + PrintToken(Literal(path)), op, PrintToken(bound), rest);
  }

  lemma LexLike(path: string, pattern: string, rest: string)
    requires Separated(rest)
    ensures Lex(PrintPred(StringLike(path, pattern)) + rest)
         == Prepend(TokensOfPred(StringLike(path, pattern)), Lex(rest))
  {
    hide Lex;
    var name := "JSON_EXTRACT_STRING";
    LexExtract(name, path, Word("LIKE"), Literal(pattern), rest);
    Regroup(name + "(meta_fields, " + PrintToken(Literal(path)), "LIKE", PrintToken(Literal(pattern)), rest);
    ExtractText(name, path);
    LikeText(name + "(meta_fields, " + PrintToken(Literal(path)));
    assert TokensOfPred(StringLike(path, pattern))
        == HeadTokens(name, path) + [Symbol(")"), Word("LIKE"), Literal(pattern)];
  }

  lemma LexPred(p: Pred, rest: string)
    requires ReadablePred(p) && Separated(rest)
    ensures Lex(PrintPred(p) + rest) == Prepend(TokensOfPred(p), Lex(rest))
  {
    hide Lex, PrintToken;
    match p
    case JsonContains(path, arg) => LexContains(path, arg, rest);
    case StringLike(path, pattern) => LexLike(path, pattern, rest);
    case StringTest(path, op, text) =>
      LexTest("JSON_EXTRACT_STRING", path, op, Literal(text), rest);
      ExtractText("JSON_EXTRACT_STRING", path);
      assert TokensOfPred(p) == HeadTokens("JSON_EXTRACT_STRING", path) + [Symbol(")"), Symbol(op), Literal(text)];
    case NumberTest(path, op, bound) =>
      LexTest("JSON_EXTRACT_DOUBLE", path, op, bound, rest);
      ExtractText("JSON_EXTRACT_DOUBLE", path);
      assert TokensOfPred(p) == HeadTokens("JSON_EXTRACT_DOUBLE", path) + [Symbol(")"), Symbol(op), bound];
  }

  lemma ExtractText(name: string, path: string)
    requires name in {"JSON_EXTRACT_STRING", "JSON_EXTRACT_DOUBLE"}
    ensures name == "JSON_EXTRACT_STRING" ==> name + "(meta_fields, " == "JSON_EXTRACT_STRING(meta_fields, "
    ensures name == "JSON_EXTRACT_DOUBLE" ==> name + "(meta_fields, " == "JSON_EXTRACT_DOUBLE(meta_fields, "
  {
  }

  lemma LikeText(front: string)
    ensures front + ") LIKE " == front + ") " + "LIKE" + " "
  {
    assert ") LIKE " == ") " + "LIKE" + " ";
  }

  lemma Regroup(front: string, op: string, bound: string, rest: string)
    ensures front + (")" + (" " + (op + (" " + (bound + rest)))))
         == front + ") " + op + " " + bound + rest
  {
    assert ") " == ")" + " ";
  }

  function TestTail(op: Token, bound: Token, rest: string): string {
    ")" + (" " + (PrintToken(op) + (" " + (PrintToken(bound) + rest))))
  }

  lemma LexTestTail(op: Token, bound: Token, rest: string)
    requires IsTestOp(op) || op == Word("LIKE")
    requires Readable(bound) && Separated(rest)
    ensures Lex(TestTail(op, bound, rest)) == Prepend([Symbol(")"), op, bound], Lex(rest))
  {
    hide Lex;
    var r3 := PrintToken(bound) + rest;
    var r2 := PrintToken(op) + (" " + r3);
    LexSymbol(")", " " + r2);
    LexSpace(r2);
    if op.Symbol? {
      LexSymbol(op.sym, " " + r3);
    } else {
      LexWord("LIKE", " " + r3);
    }
    LexSpace(r3);
    LexToken(bound, rest);
    PrependTwice([op], [bound], [op, bound], Lex(rest));
    PrependTwice([Symbol(")")], [op, bound], [Symbol(")"), op, bound], Lex(rest));
  }

  lemma NotText(p: string, rest: string)
    ensures "NOT " + p + rest == "NOT" + (" " + (p + rest))
  {
    assert "NOT " == "NOT" + " ";
  }

  lemma JoinText(a: string, b: string, rest: string)
    ensures a + " AND " + b + rest == a + (" " + ("AND" + (" " + (b + rest))))
    ensures a + " OR " + b + rest == a + (" " + ("OR" + (" " + (b + rest))))
  {
    assert " AND " == " " + "AND" + " ";
    assert " OR " == " " + "OR" + " ";
  }

  lemma {:induction false} LexFactor(f: Factor, rest: string)
    requires ReadableFactor(f) && Separated(rest)
    ensures Lex(PrintFactor(f) + rest) == Prepend(TokensOfFactor(f), Lex(rest))
  {
    hide Lex, PrintPred, TokensOfPred;
    match f
    case Atom(p) => LexPred(p, rest);
    case NotAtom(p) =>
      NotText(PrintPred(p), rest);
      LexWord("NOT", " " + (PrintPred(p) + rest));
      LexSpace(PrintPred(p) + rest);
      LexPred(p, rest);
      PrependTwice([Word("NOT")], TokensOfPred(p), TokensOfFactor(f), Lex(rest));
    case Group(inner) =>
      var r := ")" + rest;
      assert PrintFactor(f) + rest == "(" + (PrintOr(inner) + r);
      LexSymbol("(", PrintOr(inner) + r);
      LexOr(inner, r);
      LexSymbol(")", rest);
      var closed := TokensOfOr(inner) + [Symbol(")")];
      PrependTwice(TokensOfOr(inner), [Symbol(")")], closed, Lex(rest));
      PrependTwice([Symbol("(")], closed, TokensOfFactor(f), Lex(rest));
  }

  lemma {:induction false} LexAnd(a: AndList, rest: string)
    requires ReadableAnd(a) && Separated(rest)
    ensures Lex(PrintAnd(a) + rest) == Prepend(TokensOfAnd(a), Lex(rest))
  {
    hide Lex;
    match a
    case OneFactor(f) => LexFactor(f, rest);
    case AndAlso(f, more) =>
      var r2 := PrintAnd(more) + rest;
      var r1 := " " + ("AND" + (" " + r2));
      JoinText(PrintFactor(f), PrintAnd(more), rest);
      LexFactor(f, r1);
      LexSpace("AND" + (" " + r2));
      LexWord("AND", " " + r2);
      LexSpace(r2);
      LexAnd(more, rest);
      var tail := [Word("AND")] + TokensOfAnd(more);
      PrependTwice([Word("AND")], TokensOfAnd(more), tail, Lex(rest));
      PrependTwice(TokensOfFactor(f), tail, TokensOfAnd(a), Lex(rest));
  }

  lemma {:induction false} LexOr(o: OrList, rest: string)
    requires ReadableOr(o) && Separated(rest)
    ensures Lex(PrintOr(o) + rest) == Prepend(TokensOfOr(o), Lex(rest))
  {
    hide Lex;
    match o
    case OneTerm(t) => LexAnd(t, rest);
    case OrElse(t, more) =>
      var r2 := PrintOr(more) + rest;
      var r1 := " " + ("OR" + (" " + r2));
      JoinText(PrintAnd(t), PrintOr(more), rest);
      LexAnd(t, r1);
      LexSpace("OR" + (" " + r2));
      LexWord("OR", " " + r2);
      LexSpace(r2);
      LexOr(more, rest);
      var tail := [Word("OR")] + TokensOfOr(more);
      PrependTwice([Word("OR")], TokensOfOr(more), tail, Lex(rest));
      PrependTwice(TokensOfAnd(t), tail, TokensOfOr(o), Lex(rest));
  }

  /** Printing a search condition and reading it back gives the same tree. */
  lemma PrintedConditionReadsBack(o: OrList)
    requires ReadableOr(o)
    ensures ReadCondition(PrintOr(o)) == Some(o)
  {
    LexOr(o, "");
    assert PrintOr(o) + "" == PrintOr(o);
    ParseOrBack(o, []);
    assert TokensOfOr(o) + [] == TokensOfOr(o);
  }
}

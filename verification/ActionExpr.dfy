/** Action expressions: lexer, recursive-descent parser, printer and evaluator. */
module ActionExpr {
  import opened Bytes

  // ---------- lexer ----------

  datatype Token = Open | Close | And | Or | Not | Comma | At | Str(text: string) | Eof

  predicate Blank(c: char)
  {
    c == ' ' || c == '\t'
  }

  /** The punctuation token that begins at p, if any. */
  function Punct(s: string, p: nat): (r: Option<Token>)
    requires p <= |s|
    ensures r.Some? ==> p + Width(r.value) <= |s| && !r.value.Str? && !r.value.Eof?
  {
    if p == |s| then None
    else if s[p] == '(' then Some(Open)
    else if s[p] == ')' then Some(Close)
    else if s[p] == '&' && p + 1 < |s| && s[p + 1] == '&' then Some(And)
    else if s[p] == '|' && p + 1 < |s| && s[p + 1] == '|' then Some(Or)
    else if s[p] == '!' then Some(Not)
    else if s[p] == ',' then Some(Comma)
    else if s[p] == '@' then Some(At)
    else None
  }

  function Width(t: Token): nat
  {
    if t.And? || t.Or? then 2 else 1
  }

  function SkipBlanks(s: string, p: nat): (q: nat)
    requires p <= |s|
    ensures p <= q <= |s| && (q < |s| ==> !Blank(s[q]))
    decreases |s| - p
  {
    if p < |s| && Blank(s[p]) then SkipBlanks(s, p + 1) else p
  }

  function SkipQuotes(s: string, p: nat, quoted: bool): (r: (nat, bool))
    requires p <= |s|
    ensures p <= r.0 <= |s| && (r.0 < |s| ==> s[r.0] != '"')
    decreases |s| - p
  {
    if p < |s| && s[p] == '"' then SkipQuotes(s, p + 1, !quoted) else (p, quoted)
  }

  /** The string token read from p on: quotes toggle, a backslash takes the next
      character as it is, and outside quotes punctuation or a blank ends it. None is the
      end of input inside quotes or after a backslash. */
  function Scan(s: string, p: nat, quoted: bool, text: string): (r: (Option<string>, nat))
    requires p <= |s|
    ensures p <= r.1 <= |s|
    decreases |s| - p
  {
    var (q, quoted') := SkipQuotes(s, p, quoted);
    if q == |s| then (if quoted' then None else Some(text), q)
    else if !quoted' && (Punct(s, q).Some? || Blank(s[q])) then (Some(text), q)
    else if s[q] == '\\' then
      if q + 1 == |s| then (None, q + 1) else Scan(s, q + 2, quoted', text + [s[q + 1]])
    else Scan(s, q + 1, quoted', text + [s[q]])
  }

  /** get_token: the next token and the position behind it. Every token but the end
      of input consumes something. */
  function Lex(s: string, p: nat): (r: (Token, nat))
    requires p <= |s|
    ensures p <= r.1 <= |s| && (r.0 != Eof ==> p < r.1)
  {
    var q := SkipBlanks(s, p);
    if q == |s| then (Eof, q) else
    match Punct(s, q)
    case Some(t) => (t, q + Width(t))
    case None =>
      ScanProgress(s, q, "");
      var (text, end) := Scan(s, q, false, "");
      (if text.Some? then Str(text.value) else Eof, end)
  }

  lemma ScanProgress(s: string, p: nat, text: string)
    requires p < |s| && Punct(s, p).None? && !Blank(s[p])
    ensures p < Scan(s, p, false, text).1
  {
  }

  // ---------- expressions ----------

  datatype Expr = Atom(test: string, args: seq<string>) | Unary(arg: Expr) | Binary(lhs: Expr, and: bool, rhs: Expr)

  /** A row of the test table; args == -2 means any number. */
  datatype Test = Test(name: string, args: int, excludeOk: bool)

  /** The test table, whether an exclude action is being parsed, and the argument check
      of the individual tests. */
  datatype Grammar = Grammar(tests: seq<Test>, exclude: bool, accepts: (string, seq<string>) -> bool)

  function FindTest(tests: seq<Test>, name: string): (r: Option<Test>)
    ensures r.Some? ==> r.value in tests && r.value.name == name
  {
    if tests == [] then None else if tests[0].name == name then Some(tests[0]) else FindTest(tests[1..], name)
  }

  /** parse_test accepts this name with these arguments. */
  predicate TestOk(g: Grammar, name: string, args: seq<string>)
  {
    var t := FindTest(g.tests, name);
    t.Some? && (g.exclude ==> t.value.excludeOk) && (t.value.args == -2 || t.value.args == |args|) &&
      g.accepts(name, args)
  }

  predicate NameOk(g: Grammar, name: string)
  {
    var t := FindTest(g.tests, name);
    t.Some? && (g.exclude ==> t.value.excludeOk)
  }

  /** The arguments after an opening bracket, up to the closing one. */
  function ParseArgs(s: string, p: nat, args: seq<string>): (r: Option<(seq<string>, nat)>)
    requires p <= |s|
    ensures r.Some? ==> p < r.value.1 <= |s|
    decreases |s| - p
  {
    var (t, q) := Lex(s, p);
    if !t.Str? then None else
    var (u, q') := Lex(s, q);
    if u == Close then Some((args + [t.text], q'))
    else if u == Comma then ParseArgs(s, q', args + [t.text])
    else None
  }

  function ParseTest(g: Grammar, s: string, p: nat, name: string): (r: Option<(Expr, nat)>)
    requires p <= |s|
    ensures r.Some? ==> p <= r.value.1 <= |s|
  {
    if !NameOk(g, name) then None else
    var (t, q) := Lex(s, p);
    var parsed: Option<(seq<string>, nat)> := if t != Open then Some(([], p))
                  else if Lex(s, q).0 == Close then Some(([], Lex(s, q).1))
                  else ParseArgs(s, q, []);
    match parsed
    case None => None
    case Some((args, end)) => if TestOk(g, name, args) then Some((Atom(name, args), end)) else None
  }

  function ParseAtom(g: Grammar, s: string, p: nat): (r: Option<(Expr, nat)>)
    requires p <= |s|
    ensures r.Some? ==> p < r.value.1 <= |s|
    decreases |s| - p, 0
  {
    var (t, q) := Lex(s, p);
    match t
    case Not => (match ParseAtom(g, s, q)
                 case None => None
                 case Some((e, end)) => Some((Unary(e), end)))
    case Open => ParseExpr(g, s, q, true)
    case Str(name) => ParseTest(g, s, q, name)
    case _ => None
  }

  function ParseExpr(g: Grammar, s: string, p: nat, sub: bool): (r: Option<(Expr, nat)>)
    requires p <= |s|
    ensures r.Some? ==> p < r.value.1 <= |s|
    decreases |s| - p, 1
  {
    match ParseAtom(g, s, p)
    case None => None
    case Some((e, q)) => ParseTail(g, s, q, e, sub)
  }

  /** The operator chain behind an operand: left to right, both operators alike. */
  function ParseTail(g: Grammar, s: string, p: nat, lhs: Expr, sub: bool): (r: Option<(Expr, nat)>)
    requires p <= |s|
    ensures r.Some? ==> p <= r.value.1 <= |s|
    decreases |s| - p, 0
  {
    var (t, q) := Lex(s, p);
    if t == Eof then (if sub then None else Some((lhs, q)))
    else if t == Close then (if sub then Some((lhs, q)) else None)
    else if t != And && t != Or then None
    else match ParseAtom(g, s, q)
         case None => None
         case Some((rhs, end)) => ParseTail(g, s, end, Binary(lhs, t == And, rhs), sub)
  }

  // ---------- printer and evaluator ----------

  function PrintArgs(args: seq<string>): string
  {
    if args == [] then "" else if |args| == 1 then args[0] else args[0] + "," + PrintArgs(args[1..])
  }

  function OpText(and: bool): string
  {
    if and then "&&" else "||"
  }

  /** dump_parse_tree. */
  function Print(e: Expr): string
  {
    match e
    case Atom(name, args) => if args == [] then name else name + "(" + PrintArgs(args) + ")"
    case Unary(arg) => "!" + Print(arg)
    case Binary(lhs, and, rhs) => "(" + Print(lhs) + OpText(and) + Print(rhs) + ")"
  }

  /** eval_expr, with the tests' verdicts given by `holds`: the right operand is only
      evaluated when the left one does not decide. */
  function Eval(e: Expr, holds: (string, seq<string>) -> bool): bool
  {
    match e
    case Atom(name, args) => holds(name, args)
    case Unary(arg) => !Eval(arg, holds)
    case Binary(lhs, and, rhs) =>
      var m := Eval(lhs, holds);
      if (and && m) || (!and && !m) then Eval(rhs, holds) else m
  }

  // ---------- printing and parsing again ----------

  predicate Special(c: char)
  {
    c == '(' || c == ')' || c == '!' || c == ',' || c == '@' || Blank(c) || c == '"' || c == '\\'
  }

  /** Text that needs no quoting: it is not empty, holds no special character and no
      doubled operator sign. */
  predicate Plain(t: string)
  {
    && t != ""
    && (forall i :: 0 <= i < |t| ==> !Special(t[i]))
    && (forall i :: 0 <= i < |t| - 1 ==> !(t[i] == '&' && t[i + 1] == '&') && !(t[i] == '|' && t[i + 1] == '|'))
  }

  /** Test names end right before an operator, so they may hold no operator sign at all. */
  predicate PlainName(t: string)
  {
    t != "" && forall i :: 0 <= i < |t| ==> !Special(t[i]) && t[i] != '&' && t[i] != '|'
  }

  ghost predicate Printable(g: Grammar, e: Expr)
  {
    match e
    case Atom(name, args) => PlainName(name) && TestOk(g, name, args) && forall i :: 0 <= i < |args| ==> Plain(args[i])
    case Unary(arg) => Printable(g, arg)
    case Binary(lhs, and, rhs) => Printable(g, lhs) && Printable(g, rhs)
  }

  /** What may follow a printed expression: the end, a closing bracket or an operator. */
  ghost predicate Follows(s: string, p: nat)
    requires p <= |s|
  {
    p == |s| || Punct(s, p) == Some(Close) || Punct(s, p) == Some(And) || Punct(s, p) == Some(Or)
  }

  /** Plain text is scanned as it is, up to whatever ends it. */
  lemma {:induction false} ScanPlain(s: string, p: nat, t: string, k: nat)
    requires k <= |t| && p + |t| <= |s| && s[p..p + |t|] == t
    requires (forall i :: 0 <= i < |t| ==> !Special(t[i])) && forall j :: p <= j < p + |t| ==> Punct(s, j).None?
    requires p + |t| == |s| || Punct(s, p + |t|).Some?
    ensures Scan(s, p + k, false, t[..k]) == (Some(t), p + |t|)
    decreases |t| - k
  {
    if k < |t| {
      assert s[p + k] == s[p..p + |t|][k] == t[k];
      assert Punct(s, p + k).None?;
      ScanPlain(s, p, t, k + 1);
      assert t[..k + 1] == t[..k] + [t[k]];
    } else {
      assert t[..k] == t;
    }
  }

  lemma NoPunctInside(s: string, p: nat, t: string)
    requires Plain(t) && p + |t| <= |s| && s[p..p + |t|] == t
    requires p + |t| < |s| ==> s[p + |t|] != '&' && s[p + |t|] != '|'
    ensures forall j :: p <= j < p + |t| ==> Punct(s, j).None?
  {
    forall j | p <= j < p + |t|
      ensures Punct(s, j).None?
    {
      var i := j - p;
      assert s[j] == s[p..p + |t|][i] == t[i];
      assert !Special(t[i]);
      if i + 1 < |t| {
        assert s[j + 1] == s[p..p + |t|][i + 1] == t[i + 1];
      }
    }
  }

  lemma NoPunctInName(s: string, p: nat, t: string)
    requires PlainName(t) && p + |t| <= |s| && s[p..p + |t|] == t
    ensures forall j :: p <= j < p + |t| ==> Punct(s, j).None?
  {
    forall j | p <= j < p + |t|
      ensures Punct(s, j).None?
    {
      assert s[j] == s[p..p + |t|][j - p] == t[j - p];
      assert !Special(t[j - p]);
    }
  }

  lemma LexPunct(s: string, p: nat, t: Token)
    requires p <= |s| && Punct(s, p) == Some(t)
    ensures Lex(s, p) == (t, p + Width(t))
  {
  }

  lemma LexText(s: string, p: nat, t: string)
    requires t != "" && p + |t| <= |s| && s[p..p + |t|] == t
    requires (forall i :: 0 <= i < |t| ==> !Special(t[i])) && forall j :: p <= j < p + |t| ==> Punct(s, j).None?
    requires p + |t| == |s| || Punct(s, p + |t|).Some?
    ensures Lex(s, p) == (Str(t), p + |t|)
  {
    hide Scan;
    assert s[p] == s[p..p + |t|][0] == t[0];
    ScanPlain(s, p, t, 0);
    assert t[..0] == "";
  }

  /** A part of a text that stands at p, with its place in the text. */
  lemma Part(s: string, p: nat, w: string, q: nat, t: string)
    requires p + |w| <= |s| && s[p..p + |w|] == w && q + |t| <= |w| && w[q..q + |t|] == t
    ensures s[p + q..p + q + |t|] == t
  {
    SliceSlice(s, p, |w|, q, q + |t|);
  }

  lemma PartAt(s: string, p: nat, w: string, q: nat)
    requires p + |w| <= |s| && s[p..p + |w|] == w && q < |w|
    ensures s[p + q] == w[q]
  {
    assert s[p..p + |w|][q] == s[p + q];
  }

  lemma {:induction false} ArgsBack(s: string, p: nat, args: seq<string>, before: seq<string>)
    requires args != [] && forall i :: 0 <= i < |args| ==> Plain(args[i])
    requires p + |PrintArgs(args)| < |s| && s[p..p + |PrintArgs(args)|] == PrintArgs(args)
    requires s[p + |PrintArgs(args)|] == ')'
    ensures ParseArgs(s, p, before) == Some((before + args, p + |PrintArgs(args)| + 1))
    decreases |args|
  {
    hide Lex, Punct, Plain;
    var t := args[0];
    var q := p + |t|;
    if |args| == 1 {
      PlainToken(s, p, t);
      LexPunct(s, q, Close) by { ClosePunct(s, q); }
      assert before + [t] == before + args;
    } else {
      var rest := PrintArgs(args[1..]);
      var w := PrintArgs(args);
      assert w == t + "," + rest;
      assert w[0..0 + |t|] == t && w[|t|] == ',' && w[|t| + 1..|t| + 1 + |rest|] == rest;
      Part(s, p, w, 0, t);
      PartAt(s, p, w, |t|);
      Part(s, p, w, |t| + 1, rest);
      PlainToken(s, p, t);
      CommaPunct(s, q);
      LexPunct(s, q, Comma);
      ArgsBack(s, q + 1, args[1..], before + [t]);
      assert before + [t] + args[1..] == before + args;
    }
  }

  lemma ClosePunct(s: string, p: nat)
    requires p < |s| && s[p] == ')'
    ensures Punct(s, p) == Some(Close)
  {
  }

  lemma CommaPunct(s: string, p: nat)
    requires p < |s| && s[p] == ','
    ensures Punct(s, p) == Some(Comma)
  {
  }

  lemma PlainToken(s: string, p: nat, t: string)
    requires Plain(t) && p + |t| < |s| && s[p..p + |t|] == t && (s[p + |t|] == ',' || s[p + |t|] == ')')
    ensures Lex(s, p) == (Str(t), p + |t|)
  {
    NoPunctInside(s, p, t);
    LexText(s, p, t);
  }

  lemma CallText(name: string, inner: string)
    ensures var w := name + "(" + inner + ")";
            && w[0..0 + |name|] == name && w[|name|] == '(' && w[|name| + 1..|name| + 1 + |inner|] == inner
            && w[|w| - 1] == ')'
  {
  }

  lemma BracketText(l: string, o: string, r: string)
    requires |o| == 2
    ensures var w := "(" + l + o + r + ")";
            && w[0] == '(' && w[1..1 + |l|] == l && w[1 + |l|..1 + |l| + |o|] == o
            && w[3 + |l|..3 + |l| + |r|] == r && w[|w| - 1] == ')'
  {
  }

  lemma CallParts(s: string, p: nat, name: string, inner: string)
    requires var w := name + "(" + inner + ")";
             p + |w| <= |s| && s[p..p + |w|] == w
    ensures s[p..p + |name|] == name && s[p + |name|] == '('
    ensures s[p + |name| + 1..p + |name| + 1 + |inner|] == inner && s[p + |name| + 1 + |inner|] == ')'
  {
    var w := name + "(" + inner + ")";
    CallText(name, inner);
    Part(s, p, w, 0, name);
    PartAt(s, p, w, |name|);
    Part(s, p, w, |name| + 1, inner);
    PartAt(s, p, w, |w| - 1);
  }

  /** An atom printed where an operand may stand is parsed back. */
  lemma AtomBack(g: Grammar, s: string, p: nat, e: Expr)
    requires e.Atom? && Printable(g, e) && p + |Print(e)| <= |s| && s[p..p + |Print(e)|] == Print(e)
    requires Follows(s, p + |Print(e)|)
    ensures ParseAtom(g, s, p) == Some((e, p + |Print(e)|))
  {
    hide Lex, TestOk, Plain, PlainName, ParseArgs, PrintArgs, Punct, ParseAtom, NameOk;
    var name, q := e.test, p + |e.test|;
    NameKnown(g, name, e.args);
    if e.args == [] {
      NameToken(s, p, name);
      LexFollows(s, q);
      BareTest(g, s, p, q, name);
    } else {
      var inner := PrintArgs(e.args);
      assert Print(e) == name + "(" + inner + ")";
      CallParts(s, p, name, inner);
      OpenPunct(s, q);
      NameToken(s, p, name);
      LexPunct(s, q, Open);
      CallBack(g, s, p, q, name, e.args);
    }
  }

  lemma CallBack(g: Grammar, s: string, p: nat, q: nat, name: string, args: seq<string>)
    requires p <= q < |s| && Lex(s, p) == (Str(name), q) && Lex(s, q) == (Open, q + 1)
    requires NameOk(g, name) && TestOk(g, name, args) && args != [] && (forall i :: 0 <= i < |args| ==> Plain(args[i]))
    requires var inner := PrintArgs(args);
             q + 1 + |inner| < |s| && s[q + 1..q + 1 + |inner|] == inner && s[q + 1 + |inner|] == ')'
    ensures ParseAtom(g, s, p) == Some((Atom(name, args), q + 1 + |PrintArgs(args)| + 1))
  {
    hide Lex, TestOk, Plain, ParseArgs, PrintArgs, ParseAtom, NameOk;
    FirstArg(s, q + 1, args);
    ArgsBack(s, q + 1, args, []);
    assert [] + args == args;
    CalledTest(g, s, p, q, name, args, q + 1 + |PrintArgs(args)| + 1);
  }

  lemma BareTest(g: Grammar, s: string, p: nat, q: nat, name: string)
    requires p <= q <= |s| && Lex(s, p) == (Str(name), q) && Lex(s, q).0 != Open && NameOk(g, name) &&
             TestOk(g, name, [])
    ensures ParseAtom(g, s, p) == Some((Atom(name, []), q))
  {
    hide Lex, TestOk, NameOk;
  }

  lemma CalledTest(g: Grammar, s: string, p: nat, q: nat, name: string, args: seq<string>, end: nat)
    requires p <= q < |s| && Lex(s, p) == (Str(name), q) && Lex(s, q) == (Open, q + 1) && Lex(s, q + 1).0 != Close
    requires NameOk(g, name) && TestOk(g, name, args) && ParseArgs(s, q + 1, []) == Some((args, end))
    ensures ParseAtom(g, s, p) == Some((Atom(name, args), end))
  {
    hide Lex, TestOk, NameOk, ParseArgs;
  }

  lemma NameKnown(g: Grammar, name: string, args: seq<string>)
    requires TestOk(g, name, args)
    ensures NameOk(g, name)
  {
  }

  lemma NotPunct(s: string, p: nat)
    requires p < |s| && s[p] == '!'
    ensures Punct(s, p) == Some(Not)
  {
  }

  lemma OpenPunct(s: string, p: nat)
    requires p < |s| && s[p] == '('
    ensures Punct(s, p) == Some(Open)
  {
  }

  lemma NameToken(s: string, p: nat, t: string)
    requires PlainName(t) && p + |t| <= |s| && s[p..p + |t|] == t && (p + |t| == |s| || Punct(s, p + |t|).Some?)
    ensures Lex(s, p) == (Str(t), p + |t|)
  {
    hide Punct, Lex;
    NoPunctInName(s, p, t);
    LexText(s, p, t);
  }

  lemma LexFollows(s: string, p: nat)
    requires p <= |s| && Follows(s, p)
    ensures Lex(s, p).0 != Open
    ensures p == |s| ==> Lex(s, p) == (Eof, p)
  {
    if p < |s| {
      LexPunct(s, p, Punct(s, p).value);
    }
  }

  /** The first argument is a string token, so the bracket is not closed at once. */
  lemma FirstArg(s: string, p: nat, args: seq<string>)
    requires args != [] && Plain(args[0])
    requires p + |PrintArgs(args)| < |s| && s[p..p + |PrintArgs(args)|] == PrintArgs(args) &&
             s[p + |PrintArgs(args)|] == ')'
    ensures Lex(s, p).0 != Close
  {
    var t := args[0];
    assert PrintArgs(args)[0] == t[0];
    assert s[p] == s[p..p + |PrintArgs(args)|][0] == t[0];
    assert !Special(t[0]);
  }

  /** Any printed expression, where an operand may stand, is parsed back to itself. */
  lemma {:induction false} OperandBack(g: Grammar, s: string, p: nat, e: Expr)
    requires Printable(g, e) && p + |Print(e)| <= |s| && s[p..p + |Print(e)|] == Print(e)
    requires Follows(s, p + |Print(e)|)
    ensures ParseAtom(g, s, p) == Some((e, p + |Print(e)|))
    decreases e
  {
    hide Lex, Punct, PlainName, NameOk, TestOk, Follows;
    match e
    case Atom(_, _) => AtomBack(g, s, p, e);
    case Unary(arg) =>
      var w := Print(e);
      assert w[0] == '!' && w[1..1 + |Print(arg)|] == Print(arg);
      PartAt(s, p, w, 0);
      Part(s, p, w, 1, Print(arg));
      NotPunct(s, p);
      LexPunct(s, p, Not);
      OperandBack(g, s, p + 1, arg);
    case Binary(lhs, and, rhs) => BinaryBack(g, s, p, lhs, and, rhs);
  }

  lemma PrintBinary(lhs: Expr, and: bool, rhs: Expr)
    ensures Print(Binary(lhs, and, rhs)) == "(" + Print(lhs) + OpText(and) + Print(rhs) + ")"
    ensures |Print(Binary(lhs, and, rhs))| == |Print(lhs)| + |Print(rhs)| + 4
  {
  }

  lemma BracketParts(s: string, p: nat, l: string, o: string, r: string)
    requires |o| == 2
    requires var w := "(" + l + o + r + ")";
             p + |w| <= |s| && s[p..p + |w|] == w
    ensures s[p] == '(' && s[p + 1..p + 1 + |l|] == l && s[p + 1 + |l|..p + 3 + |l|] == o
    ensures s[p + 3 + |l|..p + 3 + |l| + |r|] == r && s[p + 3 + |l| + |r|] == ')'
  {
    var w := "(" + l + o + r + ")";
    BracketText(l, o, r);
    PartAt(s, p, w, 0);
    Part(s, p, w, 1, l);
    Part(s, p, w, 1 + |l|, o);
    Part(s, p, w, 3 + |l|, r);
    PartAt(s, p, w, |w| - 1);
  }

  lemma {:induction false} BinaryBack(g: Grammar, s: string, p: nat, lhs: Expr, and: bool, rhs: Expr)
    requires Printable(g, lhs) && Printable(g, rhs)
    requires var t := Print(Binary(lhs, and, rhs)); p + |t| <= |s| && s[p..p + |t|] == t
    ensures ParseAtom(g, s, p) == Some((Binary(lhs, and, rhs), p + |Print(Binary(lhs, and, rhs))|))
    decreases Binary(lhs, and, rhs), 0
  {
    hide Lex, Punct, Printable, ParseTail, ParseAtom, ParseExpr, Print;
    var l, o, r := Print(lhs), OpText(and), Print(rhs);
    PrintBinary(lhs, and, rhs);
    BracketParts(s, p, l, o, r);
    var a := p + 1 + |l|;
    var b := a + 2;
    var c := b + |r|;
    OpenPunct(s, p);
    LexPunct(s, p, Open);
    OperatorAt(s, a, and);
    ClosePunct(s, c);
    OperandBack(g, s, p + 1, lhs);
    LexPunct(s, a, if and then And else Or);
    OperandBack(g, s, b, rhs);
    LexPunct(s, c, Close);
    BracketedBack(g, s, p, lhs, and, rhs, a, b, c);
  }

  lemma OperatorAt(s: string, p: nat, and: bool)
    requires p + 2 <= |s| && s[p..p + 2] == OpText(and)
    ensures Punct(s, p) == Some(if and then And else Or)
  {
    assert s[p] == s[p..p + 2][0] && s[p + 1] == s[p..p + 2][1];
  }

  lemma BracketedBack(g: Grammar, s: string, p: nat, lhs: Expr, and: bool, rhs: Expr, a: nat, b: nat, c: nat)
    requires p < a < b <= c < |s|
    requires Lex(s, p) == (Open, p + 1) && ParseAtom(g, s, p + 1) == Some((lhs, a))
    requires Lex(s, a) == (if and then And else Or, b) && ParseAtom(g, s, b) == Some((rhs, c))
    requires Lex(s, c) == (Close, c + 1)
    ensures ParseAtom(g, s, p) == Some((Binary(lhs, and, rhs), c + 1))
  {
    hide Lex;
    assert ParseTail(g, s, c, Binary(lhs, and, rhs), true) == Some((Binary(lhs, and, rhs), c + 1));
    assert ParseTail(g, s, a, lhs, true) == ParseTail(g, s, c, Binary(lhs, and, rhs), true);
  }

  /** Parsing the printed form of an expression gives back the same expression. */
  lemma PrintParse(g: Grammar, e: Expr)
    requires Printable(g, e)
    ensures ParseExpr(g, Print(e), 0, false) == Some((e, |Print(e)|))
  {
    hide Lex, Printable, Punct, ParseAtom;
    var s := Print(e);
    assert s[0..0 + |s|] == s;
    OperandBack(g, s, 0, e);
    LexFollows(s, |s|);
  }

  // ---------- operator chains ----------

  datatype Link = Link(and: bool, operand: Expr)

  function LeftFold(first: Expr, links: seq<Link>): Expr
  {
    if links == [] then first else
      var n := |links| - 1;
      Binary(LeftFold(first, links[..n]), links[n].and, links[n].operand)
  }

  function PrintLinks(links: seq<Link>): string
  {
    if links == [] then "" else OpText(links[0].and) + Print(links[0].operand) + PrintLinks(links[1..])
  }

  lemma LinkText(s: string, p: nat, o: string, t: string, rest: string)
    requires p + |o| + |t| + |rest| == |s| && s[p..] == o + t + rest
    ensures s[p..p + |o|] == o && s[p + |o|..p + |o| + |t|] == t && s[p + |o| + |t|..] == rest
  {
    var w := o + t + rest;
    assert w[..|o|] == o && w[|o|..|o| + |t|] == t && w[|o| + |t|..] == rest;
    assert s[p..][|o| + |t|..] == s[p + |o| + |t|..];
    assert s[p..][..|o|] == s[p..p + |o|] && s[p..][|o|..|o| + |t|] == s[p + |o|..p + |o| + |t|];
  }

  lemma {:induction false} TailBack(g: Grammar, s: string, p: nat, lhs: Expr, links: seq<Link>)
    requires forall i :: 0 <= i < |links| ==> Printable(g, links[i].operand)
    requires p + |PrintLinks(links)| == |s| && s[p..] == PrintLinks(links)
    ensures ParseTail(g, s, p, lhs, false) == Some((FoldFrom(lhs, links), |s|))
    decreases |links|
  {
    hide Lex, Printable, Punct, ParseAtom, Print, ParseTail;
    if links == [] {
      LexFollows(s, p);
      TailEnds(g, s, p, lhs);
    } else {
      var o, t, rest := OpText(links[0].and), Print(links[0].operand), PrintLinks(links[1..]);
      LinkText(s, p, o, t, rest);
      OperatorAt(s, p, links[0].and);
      LexPunct(s, p, if links[0].and then And else Or);
      var q := p + 2 + |t|;
      RestFollows(s, q, links[1..]);
      OperandBack(g, s, p + 2, links[0].operand);
      TailBack(g, s, q, Binary(lhs, links[0].and, links[0].operand), links[1..]);
      TailStep(g, s, p, lhs, links[0].and, links[0].operand, q);
    }
  }

  lemma TailEnds(g: Grammar, s: string, p: nat, lhs: Expr)
    requires p <= |s| && Lex(s, p) == (Eof, p)
    ensures ParseTail(g, s, p, lhs, false) == Some((lhs, p))
  {
    hide Lex;
  }

  lemma TailStep(g: Grammar, s: string, p: nat, lhs: Expr, and: bool, rhs: Expr, q: nat)
    requires p + 2 <= q <= |s| && Lex(s, p) == (if and then And else Or, p + 2) &&
             ParseAtom(g, s, p + 2) == Some((rhs, q))
    ensures ParseTail(g, s, p, lhs, false) == ParseTail(g, s, q, Binary(lhs, and, rhs), false)
  {
    hide Lex, ParseAtom;
  }

  function FoldFrom(lhs: Expr, links: seq<Link>): Expr
    decreases |links|
  {
    if links == [] then lhs else FoldFrom(Binary(lhs, links[0].and, links[0].operand), links[1..])
  }

  lemma RestFollows(s: string, p: nat, links: seq<Link>)
    requires p <= |s| && s[p..] == PrintLinks(links)
    ensures Follows(s, p)
  {
    hide Print;
    if links != [] {
      var o := OpText(links[0].and);
      assert PrintLinks(links)[..2] == o;
      assert s[p..p + 2] == s[p..][..2];
      OperatorAt(s, p, links[0].and);
    }
  }

  lemma {:induction false} FoldFromIsLeftFold(lhs: Expr, links: seq<Link>)
    ensures FoldFrom(lhs, links) == LeftFold(lhs, links)
    decreases |links|
  {
    if |links| > 1 {
      var n := |links| - 1;
      FoldFromIsLeftFold(Binary(lhs, links[0].and, links[0].operand), links[1..]);
      LeftFoldCons(lhs, links);
    } else if |links| == 1 {
      assert links[1..] == [] && links[..0] == [];
    }
  }

  lemma {:induction false} LeftFoldCons(lhs: Expr, links: seq<Link>)
    requires links != []
    ensures LeftFold(lhs, links) == LeftFold(Binary(lhs, links[0].and, links[0].operand), links[1..])
    decreases |links|
  {
    if |links| > 1 {
      var n := |links| - 1;
      LeftFoldCons(lhs, links[..n]);
      assert links[..n][1..] == links[1..][..n - 1];
    } else {
      assert links[1..] == [] && links[..0] == [];
    }
  }

  /** A chain of operators without brackets associates to the left, whatever mixture of
      operators it holds. */
  lemma ChainParse(g: Grammar, first: Expr, links: seq<Link>)
    requires Printable(g, first) && forall i :: 0 <= i < |links| ==> Printable(g, links[i].operand)
    ensures var s := Print(first) + PrintLinks(links);
            ParseExpr(g, s, 0, false) == Some((LeftFold(first, links), |s|))
  {
    hide Lex, Printable, Punct, ParseAtom, Print, PrintLinks;
    var t, rest := Print(first), PrintLinks(links);
    var s := t + rest;
    assert s[0..0 + |t|] == t && s[|t|..] == rest;
    RestFollows(s, |t|, links);
    OperandBack(g, s, 0, first);
    TailBack(g, s, |t|, first, links);
    FoldFromIsLeftFold(first, links);
  }

  function EvalLinks(m: bool, links: seq<Link>, holds: (string, seq<string>) -> bool): bool
  {
    if links == [] then m else
      var n := |links| - 1;
      var l := EvalLinks(m, links[..n], holds);
      if links[n].and then l && Eval(links[n].operand, holds) else l || Eval(links[n].operand, holds)
  }

  /** The chain evaluates as the boolean fold from the left with equal precedence, short
      circuit or not. */
  lemma {:induction false} ChainEval(first: Expr, links: seq<Link>, holds: (string, seq<string>) -> bool)
    ensures Eval(LeftFold(first, links), holds) == EvalLinks(Eval(first, holds), links, holds)
    decreases |links|
  {
    if links != [] {
      ChainEval(first, links[..|links| - 1], holds);
    }
  }

  // ---------- the parser with its moving pointer ----------

  class Parser {
    const g: Grammar
    const source: string
    var cur: nat

    constructor (g: Grammar, source: string)
      ensures this.g == g && this.source == source && cur == 0
    {
      this.g, this.source, cur := g, source, 0;
    }

    /** get_token. */
    method GetToken() returns (t: Token)
      requires cur <= |source|
      modifies this
      ensures (t, cur) == Lex(source, old(cur)) && cur <= |source|
    {
      hide Punct;
      while cur < |source| && Blank(source[cur])
        invariant cur <= |source| && SkipBlanks(source, cur) == SkipBlanks(source, old(cur))
      {
        cur := cur + 1;
      }
      if cur == |source| {
        return Eof;
      }
      var punct := Punct(source, cur);
      if punct.Some? {
        cur := cur + Width(punct.value);
        return punct.value;
      }
      var text := GetString();
      t := if text.Some? then Str(text.value) else Eof;
    }

    /** The string part of get_token. */
    method GetString() returns (r: Option<string>)
      requires cur <= |source|
      modifies this
      ensures (r, cur) == Scan(source, old(cur), false, "") && cur <= |source|
    {
      hide Punct, SkipQuotes;
      var text, quoted := "", false;
      while true
        invariant cur <= |source| && Scan(source, cur, quoted, text) == Scan(source, old(cur), false, "")
        decreases |source| - cur
      {
        quoted := PassQuotes(quoted);
        if cur == |source| {
          return if quoted then None else Some(text);
        }
        if !quoted && (Punct(source, cur).Some? || Blank(source[cur])) {
          return Some(text);
        }
        if source[cur] == '\\' {
          cur := cur + 1;
          if cur == |source| {
            return None;
          }
        }
        text := text + [source[cur]];
        cur := cur + 1;
      }
    }

    method PassQuotes(quoted0: bool) returns (quoted: bool)
      requires cur <= |source|
      modifies this
      ensures (cur, quoted) == SkipQuotes(source, old(cur), quoted0) && cur <= |source|
    {
      quoted := quoted0;
      while cur < |source| && source[cur] == '"'
        invariant cur <= |source| && SkipQuotes(source, cur, quoted) == SkipQuotes(source, old(cur), quoted0)
      {
        cur := cur + 1;
        quoted := !quoted;
      }
    }

    /** peek_token. */
    method PeekToken() returns (t: Token)
      requires cur <= |source|
      modifies this
      ensures cur == old(cur) && t == Lex(source, cur).0
    {
      hide Lex;
      var saved := cur;
      t := GetToken();
      cur := saved;
    }

    /** parse_test: look the name up, then read all arguments before counting them. */
    method ParseTestName(name: string) returns (r: Option<Expr>)
      requires cur <= |source|
      modifies this
      ensures match ParseTest(g, source, old(cur), name)
              case None => r == None && cur <= |source|
              case Some((e, end)) => r == Some(e) && cur == end
    {
      hide Lex, TestOk, NameOk;
      if !NameOk(g, name) {
        return None;
      }
      var args: seq<string> := [];
      var token := PeekToken();
      if token == Open {
        token := GetToken();
        ghost var start := cur;
        token := GetToken();
        if token != Close {
          ghost var q := start;
          ghost var all := ParseArgs(source, start, []);
          while true
            invariant q <= cur <= |source| && (token, cur) == Lex(source, q) && ParseArgs(source, q, args) == all
            decreases |source| - q
          {
            if !token.Str? {
              return None;
            }
            ghost var args0 := args;
            args := args + [token.text];
            token := GetToken();
            if token == Close {
              break;
            }
            if token != Comma {
              return None;
            }
            q := cur;
            token := GetToken();
          }
        }
      }
      if !TestOk(g, name, args) {
        return None;
      }
      r := Some(Atom(name, args));
    }

    /** get_atom. */
    method GetAtom() returns (r: Option<Expr>)
      requires cur <= |source|
      modifies this
      ensures match ParseAtom(g, source, old(cur))
              case None => r == None && cur <= |source|
              case Some((e, end)) => r == Some(e) && cur == end
      decreases |source| - cur, 0
    {
      hide Lex, ParseTest;
      var token := GetToken();
      match token
      case Not =>
        r := GetAtom();
        r := if r.Some? then Some(Unary(r.value)) else None;
      case Open => r := ParseExpression(true);
      case Str(name) => r := ParseTestName(name);
      case _ => r := None;
    }

    /** parse_expr: an operand, then operators and operands as long as they come. */
    method ParseExpression(sub: bool) returns (r: Option<Expr>)
      requires cur <= |source|
      modifies this
      ensures match ParseExpr(g, source, old(cur), sub)
              case None => r == None && cur <= |source|
              case Some((e, end)) => r == Some(e) && cur == end
      decreases |source| - cur, 1
    {
      hide Lex, ParseAtom;
      ghost var start := cur;
      ghost var all := ParseExpr(g, source, cur, sub);
      r := GetAtom();
      while r.Some?
        invariant cur <= |source| && (r.Some? ==> start < cur)
        invariant if r.Some? then all == ParseTail(g, source, cur, r.value, sub) else all == None
        decreases r.Some?, |source| - cur
      {
        var op := GetToken();
        if op == Eof {
          return if sub then None else r;
        }
        if op == Close {
          return if sub then r else None;
        }
        if op != And && op != Or {
          return None;
        }
        var rhs := GetAtom();
        r := if rhs.Some? then Some(Binary(r.value, op == And, rhs.value)) else None;
      }
    }
  }
}

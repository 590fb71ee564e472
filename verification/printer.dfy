/** The expression printer of libintend/libparser/expr_dump.c, at the level of tokens, and the
    parser that the precedence table of libintend/libparser/icl_grammar.y describes. */
module Printer {
  import opened Wrappers
  import opened Syntax

  // Operator symbols; increment, decrement and minus are shared between fixities.
  datatype Symbol =
    | SPlus | SMinus | SMul | SDiv | SMod | SBoolAnd | SBoolOr | SAnd | SOr | SXor | SPow
    | SEqual | SNotEqual | SSeq | SLeq | SSmaller | SLarger
    | SInc | SDec | SNot | SNeg | SLShift | SRShift

  datatype Token =
    | Name(s: string)
    | Literal(kind: ConstKind, s: string)
    | CastTo(s: string)
    | Sym(symbol: Symbol)
    | LParen | RParen | LBracket | RBracket | Comma | Dot | Question | Colon | Equals | Scope
    | KwNew | KwFile | KwLine

  datatype Tokens = Nil | Cons(head: Token, tail: Tokens)

  // ---- the printer ----

  function SymbolOf(op: OpType): Symbol {
    match op
    case Plus => SPlus
    case Minus => SMinus
    case Mul => SMul
    case Div => SDiv
    case Mod => SMod
    case BoolAnd => SBoolAnd
    case BoolOr => SBoolOr
    case And => SAnd
    case Or => SOr
    case Xor => SXor
    case Pow => SPow
    case Equal => SEqual
    case NotEqual => SNotEqual
    case Seq => SSeq
    case Leq => SLeq
    case Smaller => SSmaller
    case Larger => SLarger
    case PostInc => SInc
    case PreInc => SInc
    case PostDec => SDec
    case PreDec => SDec
    case Not => SNot
    case Neg => SNeg
    case LShift => SLShift
    case RShift => SRShift
  }

  // Precedence and associativity: -1 left, 0 none, 1 right.
  function OpPrec(op: OpType): (int, int) {
    match op
    case BoolOr => (2, 1)
    case BoolAnd => (3, 1)
    case Not => (4, 1)
    case Equal => (5, 0)
    case NotEqual => (5, 0)
    case Seq => (5, 0)
    case Leq => (5, 0)
    case Smaller => (5, 0)
    case Larger => (5, 0)
    case And => (6, -1)
    case Or => (6, -1)
    case Xor => (6, -1)
    case Plus => (7, -1)
    case Minus => (7, -1)
    case Mul => (8, -1)
    case Div => (8, -1)
    case Mod => (8, -1)
    case Pow => (9, 1)
    case LShift => (10, -1)
    case RShift => (10, -1)
    case Neg => (11, -1)
    case PostDec => (12, -1)
    case PostInc => (12, -1)
    case PreDec => (12, -1)
    case PreInc => (12, -1)
  }

  function ExprPrec(e: Expr): (int, int) {
    match e
    case Assign(_, _) => (0, 1)
    case AssignArray(_, _, _) => (0, 1)
    case If(_, _, _) => (1, 0)
    case Cast(_, _) => (13, 1)
    case Prefix(op, _) => if op == Minus then (11, -1) else OpPrec(op)
    case Infix(op, _, _) => OpPrec(op)
    case Postfix(op, _) => OpPrec(op)
    case _ => (255, 0)
  }

  predicate Parenthesized(outer: Expr, inner: Expr, assoc: int) {
    ExprPrec(outer).0 > ExprPrec(inner).0
    || (ExprPrec(outer).0 == ExprPrec(inner).0 && assoc != ExprPrec(inner).1)
  }

  predicate Indexable(e: Expr) {
    e.Call? || e.New? || e.Static? || e.Method? || e.Index?
  }

  // The tokens printed for an expression, in front of those that follow.  Empty statements,
  // lambdas and method calls are outside the token model and print nothing.
  function Dump(e: Expr, k: Tokens): Tokens
    decreases e, 1
  {
    match e
    case Assign(name, inner) => Cons(Name(name), Cons(Equals, Wrap(inner, Parenthesized(e, inner, 1), k)))
    case AssignArray(name, index, inner) =>
      Cons(Name(name), DumpIndex(index, Cons(Equals, Wrap(inner, Parenthesized(e, inner, 1), k))))
    case Cast(typename, inner) => Cons(CastTo(typename), Wrap(inner, Parenthesized(e, inner, 1), k))
    case Call(name, args) => Cons(Name(name), Cons(LParen, DumpArgs(args, Cons(RParen, k))))
    case New(name, args) => Cons(KwNew, Cons(Name(name), Cons(LParen, DumpArgs(args, Cons(RParen, k)))))
    case Static(tname, name, args) =>
      Cons(Name(tname), Cons(Scope, Cons(Name(name), Cons(LParen, DumpArgs(args, Cons(RParen, k))))))
    case Ref(name) => Cons(Name(name), k)
    case RefArray(name, index) => Cons(Name(name), DumpIndex(index, k))
    case Index(inner, index) => Wrap(inner, !Indexable(inner), DumpIndex(index, k))
    case Const(kind, text) => Cons(Literal(kind, text), k)
    case ConstVoid => Cons(LParen, Cons(RParen, k))
    case Infix(op, left, right) =>
      Wrap(left, Parenthesized(e, left, -1), Cons(Sym(SymbolOf(op)), Wrap(right, Parenthesized(e, right, 1), k)))
    case Postfix(op, inner) => Wrap(inner, Parenthesized(e, inner, 1), Cons(Sym(SymbolOf(op)), k))
    case Prefix(op, inner) => Cons(Sym(SymbolOf(op)), Wrap(inner, Parenthesized(e, inner, -1), k))
    case Field(name) => Cons(Dot, Cons(Name(name), k))
    case StaticRef(tname, name) => Cons(Name(tname), Cons(Scope, Cons(Name(name), k)))
    case If(test, thn, els) =>
      Wrap(test, Parenthesized(e, test, 2),
           Cons(Question, Wrap(thn, Parenthesized(e, thn, 2),
                               Cons(Colon, Wrap(els, Parenthesized(e, els, 2), k)))))
    case PassRef(inner) => Cons(Sym(SAnd), Wrap(inner, Parenthesized(e, inner, 0), k))
    case File => Cons(KwFile, k)
    case Line => Cons(KwLine, k)
    case Nop => k
    case Method(_, _, _) => k
    case Lambda(_) => k
  }

  function Wrap(e: Expr, parens: bool, k: Tokens): Tokens
    decreases e, 2
  {
    if parens then Cons(LParen, Dump(e, Cons(RParen, k))) else Dump(e, k)
  }

  function DumpArgs(args: seq<Expr>, k: Tokens): Tokens
    decreases args, 0
  {
    if args == [] then k
    else if |args| == 1 then Dump(args[0], k)
    else Dump(args[0], Cons(Comma, DumpArgs(args[1..], k)))
  }

  function DumpIndex(index: seq<Expr>, k: Tokens): Tokens
    decreases index, 0
  {
    if index == [] then k
    else if index[0].Field? then Dump(index[0], DumpIndex(index[1..], k))
    else Cons(LBracket, Dump(index[0], Cons(RBracket, DumpIndex(index[1..], k))))
  }

  // ---- the parser ----

  function InfixOf(s: Symbol): Option<OpType> {
    match s
    case SPlus => Some(Plus)
    case SMinus => Some(Minus)
    case SMul => Some(Mul)
    case SDiv => Some(Div)
    case SMod => Some(Mod)
    case SBoolAnd => Some(BoolAnd)
    case SBoolOr => Some(BoolOr)
    case SAnd => Some(And)
    case SOr => Some(Or)
    case SXor => Some(Xor)
    case SPow => Some(Pow)
    case SEqual => Some(Equal)
    case SNotEqual => Some(NotEqual)
    case SSeq => Some(Seq)
    case SLeq => Some(Leq)
    case SSmaller => Some(Smaller)
    case SLarger => Some(Larger)
    case SLShift => Some(LShift)
    case SRShift => Some(RShift)
    case _ => None
  }

  function PostfixOf(s: Symbol): Option<OpType> {
    match s
    case SInc => Some(PostInc)
    case SDec => Some(PostDec)
    case _ => None
  }

  function PrefixOf(s: Symbol): Option<OpType> {
    match s
    case SMinus => Some(Minus)
    case SNot => Some(Not)
    case SNeg => Some(Neg)
    case SInc => Some(PreInc)
    case SDec => Some(PreDec)
    case _ => None
  }

  datatype Assoc = LeftAssoc | RightAssoc | NonAssoc

  // The grammar's own precedences, one line of its declarations after the other, as they stand for
  // the symbol between two operands or behind one.  The lines above and below these, of assignment
  // and the conditional and of casts, are 0, 1 and 13.
  function GrammarPrec(s: Symbol): (int, Assoc) {
    match s
    case SBoolOr => (2, RightAssoc)
    case SBoolAnd => (3, RightAssoc)
    case SNot => (4, RightAssoc)
    case SEqual => (5, NonAssoc)
    case SNotEqual => (5, NonAssoc)
    case SSeq => (5, NonAssoc)
    case SLeq => (5, NonAssoc)
    case SSmaller => (5, NonAssoc)
    case SLarger => (5, NonAssoc)
    case SAnd => (6, LeftAssoc)
    case SOr => (6, LeftAssoc)
    case SXor => (6, LeftAssoc)
    case SPlus => (7, LeftAssoc)
    case SMinus => (7, LeftAssoc)
    case SMul => (8, LeftAssoc)
    case SDiv => (8, LeftAssoc)
    case SMod => (8, LeftAssoc)
    case SPow => (9, RightAssoc)
    case SLShift => (10, LeftAssoc)
    case SRShift => (10, LeftAssoc)
    case SNeg => (11, LeftAssoc)
    case SInc => (12, LeftAssoc)
    case SDec => (12, LeftAssoc)
  }

  // The line of a prefix operator; a minus before its operand has a line of its own.
  function PrefixLine(s: Symbol): int {
    if s == SMinus then 11 else GrammarPrec(s).0
  }

  // The least operator level that a prefix operator's operand absorbs: the lines after its own.  A
  // postfix operator after a prefix increment belongs to the operand (tight), or is applied to
  // the whole, as the grammar's left-associative declaration of both has it (not tight).
  function OperandMin(s: Symbol, tight: bool): int {
    if (s == SInc || s == SDec) && tight then PrefixLine(s) else PrefixLine(s) + 1
  }

  // The level of the operator a token list starts with; -1 when it starts with none.
  function HeadLevel(k: Tokens): int {
    match k
    case Cons(Sym(s), _) => if InfixOf(s).Some? || PostfixOf(s).Some? then GrammarPrec(s).0 else -1
    case Cons(Question, _) => 1
    case _ => -1
  }

  function Size(k: Tokens): nat {
    match k
    case Nil => 0
    case Cons(_, tail) => 1 + Size(tail)
  }

  function Expect(t: Token, k: Tokens): (r: Option<Tokens>)
    ensures r.Some? ==> Size(r.value) < Size(k)
  {
    if k.Cons? && k.head == t then Some(k.tail) else None
  }

  // An expression whose operators outside prefix operands are all at level min or above.
  function ParseExpr(k: Tokens, min: int, tight: bool): (r: Option<(Expr, Tokens)>)
    ensures r.Some? ==> Size(r.value.1) < Size(k)
    decreases Size(k), 3
  {
    var (e, k1) :- ParsePrimary(k, tight);
    ParseTail(e, min, k1, tight)
  }

  // The operators that follow a complete operand.  A non-associative operator may not be
  // followed by one of its own level.
  function ParseTail(e: Expr, min: int, k: Tokens, tight: bool): (r: Option<(Expr, Tokens)>)
    ensures r.Some? ==> Size(r.value.1) <= Size(k)
    decreases Size(k), 2
  {
    if HeadLevel(k) < min || HeadLevel(k) < 0 then Some((e, k))
    else if k.head == Question then
      var (thn, k1) :- ParseExpr(k.tail, 0, tight);
      var k2 :- Expect(Colon, k1);
      var (els, k3) :- ParseExpr(k2, 2, tight);
      if HeadLevel(k3) == 1 then None else ParseTail(If(e, thn, els), min, k3, tight)
    else if PostfixOf(k.head.symbol).Some? then
      ParseTail(Postfix(PostfixOf(k.head.symbol).value, e), min, k.tail, tight)
    else
      var op := InfixOf(k.head.symbol).value;
      var (level, assoc) := GrammarPrec(k.head.symbol);
      var (right, k1) :- ParseExpr(k.tail, if assoc == RightAssoc then level else level + 1, tight);
      if assoc == NonAssoc && HeadLevel(k1) == level then None
      else ParseTail(Infix(op, e, right), min, k1, tight)
  }

  function ParsePrimary(k: Tokens, tight: bool): (r: Option<(Expr, Tokens)>)
    ensures r.Some? ==> Size(r.value.1) < Size(k)
    decreases Size(k), 1
  {
    match k
    case Cons(Literal(kind, s), k1) => Some((Const(kind, s), k1))
    case Cons(KwFile, k1) => Some((File, k1))
    case Cons(KwLine, k1) => Some((Line, k1))
    case Cons(CastTo(s), k1) =>
      var (e, k2) :- ParseExpr(k1, 14, tight);
      Some((Cast(s, e), k2))
    case Cons(Sym(s), k1) =>
      var op :- PrefixOf(s);
      var (e, k2) :- ParseExpr(k1, OperandMin(s, tight), tight);
      Some((Prefix(op, e), k2))
    case Cons(LParen, k1) => ParseParen(k1, tight)
    case Cons(KwNew, k1) => ParseNew(k1, tight)
    case Cons(Name(s), k1) => ParseName(s, k1, tight)
    case _ => None
  }

  function ParseParen(k: Tokens, tight: bool): (r: Option<(Expr, Tokens)>)
    ensures r.Some? ==> Size(r.value.1) < Size(k)
    decreases Size(k), 5
  {
    if k.Cons? && k.head == RParen then Some((ConstVoid, k.tail))
    else
      var (e, k1) :- ParseExpr(k, 0, tight);
      var k2 :- Expect(RParen, k1);
      ParseSuffix(e, k2, tight)
  }

  function ParseNew(k: Tokens, tight: bool): (r: Option<(Expr, Tokens)>)
    ensures r.Some? ==> Size(r.value.1) < Size(k)
    decreases Size(k), 5
  {
    if k.Cons? && k.head.Name? then
      var k1 :- Expect(LParen, k.tail);
      var (args, k2) :- ParseArgs(k1, tight);
      ParseSuffix(New(k.head.s, args), k2, tight)
    else None
  }

  // What a name starts: an assignment, a reference, a call, or a class member.
  function ParseName(s: string, k: Tokens, tight: bool): (r: Option<(Expr, Tokens)>)
    ensures r.Some? ==> Size(r.value.1) <= Size(k)
    decreases Size(k), 5
  {
    match k
    case Cons(Equals, k1) =>
      var (e, k2) :- ParseExpr(k1, 0, tight);
      Some((Assign(s, e), k2))
    case Cons(LParen, k1) =>
      var (args, k2) :- ParseArgs(k1, tight);
      ParseSuffix(Call(s, args), k2, tight)
    case Cons(Scope, k1) => ParseMember(s, k1, tight)
    case _ => ParseArrayName(s, k, tight)
  }

  function ParseMember(s: string, k: Tokens, tight: bool): (r: Option<(Expr, Tokens)>)
    ensures r.Some? ==> Size(r.value.1) <= Size(k)
    decreases Size(k), 5
  {
    if k.Cons? && k.head.Name? then
      if k.tail.Cons? && k.tail.head == LParen then
        assert Size(k.tail) == 1 + Size(k.tail.tail);
        var (args, k1) :- ParseArgs(k.tail.tail, tight);
        ParseSuffix(Static(s, k.head.s, args), k1, tight)
      else Some((StaticRef(s, k.head.s), k.tail))
    else None
  }

  function ParseArrayName(s: string, k: Tokens, tight: bool): (r: Option<(Expr, Tokens)>)
    ensures r.Some? ==> Size(r.value.1) <= Size(k)
    decreases Size(k), 4
  {
    var (index, k1) :- ParseIndex(k, tight);
    if index == [] then Some((Ref(s), k1))
    else if k1.Cons? && k1.head == Equals then
      var (e, k2) :- ParseExpr(k1.tail, 0, tight);
      Some((AssignArray(s, index, e), k2))
    else Some((RefArray(s, index), k1))
  }

  // One index, if there is one.
  function ParseOneIndex(k: Tokens, tight: bool): (r: Option<Option<(Expr, Tokens)>>)
    ensures r.Some? && r.value.Some? ==> Size(r.value.value.1) < Size(k)
    decreases Size(k), 2
  {
    match k
    case Cons(Dot, Cons(Name(s), k1)) => Some(Some((Field(s), k1)))
    case Cons(LBracket, k1) =>
      var (e, k2) :- ParseExpr(k1, 0, tight);
      var k3 :- Expect(RBracket, k2);
      Some(Some((e, k3)))
    case _ => Some(None)
  }

  function ParseIndex(k: Tokens, tight: bool): (r: Option<(seq<Expr>, Tokens)>)
    ensures r.Some? ==> Size(r.value.1) <= Size(k)
    decreases Size(k), 3
  {
    var first :- ParseOneIndex(k, tight);
    if first.None? then Some(([], k))
    else
      var (i, k1) := first.value;
      var (rest, k2) :- ParseIndex(k1, tight);
      Some(([i] + rest, k2))
  }

  // Each index after an indexable expression makes a node of its own.
  function ParseSuffix(e: Expr, k: Tokens, tight: bool): (r: Option<(Expr, Tokens)>)
    ensures r.Some? ==> Size(r.value.1) <= Size(k)
    decreases Size(k), 3
  {
    var first :- ParseOneIndex(k, tight);
    if first.None? then Some((e, k))
    else ParseSuffix(Index(e, [first.value.0]), first.value.1, tight)
  }

  // Arguments up to and including the closing parenthesis.
  function ParseArgs(k: Tokens, tight: bool): (r: Option<(seq<Expr>, Tokens)>)
    ensures r.Some? ==> Size(r.value.1) < Size(k)
    decreases Size(k), 5
  {
    if k.Cons? && k.head == RParen then Some(([], k.tail)) else ParseArgList(k, tight)
  }

  function ParseArgList(k: Tokens, tight: bool): (r: Option<(seq<Expr>, Tokens)>)
    ensures r.Some? ==> Size(r.value.1) < Size(k)
    decreases Size(k), 4
  {
    var byRef := k.Cons? && k.head == Sym(SAnd);
    var (e, k1) :- ParseExpr(if byRef then k.tail else k, 0, tight);
    var arg := if byRef then PassRef(e) else e;
    if k1.Cons? && k1.head == Comma then
      var (rest, k2) :- ParseArgList(k1.tail, tight);
      Some(([arg] + rest, k2))
    else
      var k2 :- Expect(RParen, k1);
      Some(([arg], k2))
  }

  // A whole token list as one expression.
  function Parse(k: Tokens, tight: bool): Option<Expr> {
    var (e, k1) :- ParseExpr(k, 0, tight);
    if k1 == Nil then Some(e) else None
  }
}

/** The printer's parentheses suffice: what it prints for a well-formed expression is read back,
    by the grammar's precedences, as that expression. */
module PrinterReading {
  import opened Wrappers
  import opened Syntax
  import opened Printer

  // ---- which expressions the grammar can build ----

  predicate IsInfix(op: OpType) {
    match op
    case PostInc => false
    case PostDec => false
    case Not => false
    case PreInc => false
    case PreDec => false
    case Neg => false
    case _ => true
  }

  predicate IsPostfix(op: OpType) { op == PostInc || op == PostDec }

  predicate IsBump(op: OpType) { op == PreInc || op == PreDec }

  predicate IsPrefix(op: OpType) { op == Minus || op == Not || op == Neg || IsBump(op) }

  // Lambdas and method calls are outside the token model; Field and PassRef stand only where an
  // index or an argument does.
  predicate WellFormed(e: Expr)
    decreases e, 0
  {
    match e
    case Assign(_, inner) => WellFormed(inner)
    case AssignArray(_, index, inner) => index != [] && IndexFormed(index) && WellFormed(inner)
    case Cast(_, inner) => WellFormed(inner)
    case Call(_, args) => ArgsFormed(args)
    case New(_, args) => ArgsFormed(args)
    case Static(_, _, args) => ArgsFormed(args)
    case RefArray(_, index) => index != [] && IndexFormed(index)
    case Infix(op, left, right) => IsInfix(op) && WellFormed(left) && WellFormed(right)
    case Postfix(op, inner) => IsPostfix(op) && WellFormed(inner)
    case Prefix(op, inner) => IsPrefix(op) && WellFormed(inner)
    case Index(inner, index) => |index| == 1 && WellFormed(inner) && IndexFormed(index)
    case If(test, thn, els) => WellFormed(test) && WellFormed(thn) && WellFormed(els)
    case Nop => false
    case Method(_, _, _) => false
    case Field(_) => false
    case Lambda(_) => false
    case PassRef(_) => false
    case _ => true
  }

  predicate IndexFormed(index: seq<Expr>)
    decreases index, 0
  {
    forall i :: 0 <= i < |index| ==> index[i].Field? || WellFormed(index[i])
  }

  predicate ArgFormed(e: Expr)
    decreases e, 1
  {
    if e.PassRef? then WellFormed(e.inner) else WellFormed(e)
  }

  predicate ArgsFormed(args: seq<Expr>)
    decreases args, 0
  {
    forall i :: 0 <= i < |args| ==> ArgFormed(args[i])
  }

  // ---- the tree the grammar reads ----

  // The same tree when postfix operators bind tighter than prefix increments.  Under the
  // grammar's own rule a postfix operator printed after a prefix increment is applied last.
  function Read(e: Expr, tight: bool): Expr
    decreases e, 0
  {
    match e
    case Assign(name, inner) => Assign(name, Read(inner, tight))
    case AssignArray(name, index, inner) => AssignArray(name, ReadAll(index, tight), Read(inner, tight))
    case Cast(typename, inner) => Cast(typename, Read(inner, tight))
    case Call(name, args) => Call(name, ReadAll(args, tight))
    case New(name, args) => New(name, ReadAll(args, tight))
    case Static(tname, name, args) => Static(tname, name, ReadAll(args, tight))
    case RefArray(name, index) => RefArray(name, ReadAll(index, tight))
    case Infix(op, left, right) => Infix(op, Read(left, tight), Read(right, tight))
    case Postfix(op, inner) => Postfix(op, Read(inner, tight))
    case Prefix(op, inner) => ReadPrefix(op, Read(inner, tight), tight)
    case Index(inner, index) => Index(Read(inner, tight), ReadAll(index, tight))
    case If(test, thn, els) => If(Read(test, tight), Read(thn, tight), Read(els, tight))
    case PassRef(inner) => PassRef(Read(inner, tight))
    case _ => e
  }

  function ReadPrefix(op: OpType, inner: Expr, tight: bool): Expr {
    if !tight && IsBump(op) && inner.Postfix? then Postfix(inner.op, Prefix(op, inner.inner)) else Prefix(op, inner)
  }

  function ReadAll(es: seq<Expr>, tight: bool): (r: seq<Expr>)
    ensures |r| == |es|
    decreases es, 0
  {
    if es == [] then [] else [Read(es[0], tight)] + ReadAll(es[1..], tight)
  }

  // ---- levels ----

  // Whether the reading of a prefix increment ends in a postfix operator.
  predicate Regroups(e: Expr, tight: bool) {
    e.Prefix? && Read(e, tight).Postfix?
  }

  // The lowest operator that a reader applies outside the first operand.
  function Outside(e: Expr, tight: bool): int {
    match e
    case Infix(op, _, _) => OpPrec(op).0
    case If(_, _, _) => 1
    case Postfix(_, _) => 12
    case _ => if Regroups(e, tight) then 12 else 255
  }

  // Operators of this level and above, after the expression, would be read as part of it.
  function Right(e: Expr, tight: bool): int {
    match e
    case Assign(_, _) => 0
    case AssignArray(_, _, _) => 0
    case If(_, _, _) => 1
    case Cast(_, _) => 14
    case Prefix(op, _) => if Regroups(e, tight) then 255 else OperandMin(SymbolOf(op), tight)
    case Infix(op, _, _) => if OpPrec(op).1 == -1 then OpPrec(op).0 + 1 else OpPrec(op).0
    case _ => 255
  }

  // Tokens that may follow an expression without being read as a part of its last name.
  predicate Follow(k: Tokens) {
    k == Nil || !(k.head.Dot? || k.head.LBracket? || k.head.LParen? || k.head.Equals? || k.head.Scope?)
  }

  predicate Starts(t: Token) {
    match t
    case Name(_) => true
    case Literal(_, _) => true
    case CastTo(_) => true
    case Sym(s) => PrefixOf(s).Some?
    case LParen => true
    case KwNew => true
    case KwFile => true
    case KwLine => true
    case _ => false
  }

  lemma {:induction false} DumpStarts(e: Expr, k: Tokens)
    requires WellFormed(e)
    ensures Dump(e, k).Cons? && Starts(Dump(e, k).head)
    decreases e
  {
    match e
    case Infix(op, left, right) =>
      var k1 := Cons(Sym(SymbolOf(op)), Wrap(right, Parenthesized(e, right, 1), k));
      if !Parenthesized(e, left, -1) { DumpStarts(left, k1); }
    case Postfix(op, inner) =>
      if !Parenthesized(e, inner, 1) { DumpStarts(inner, Cons(Sym(SymbolOf(op)), k)); }
    case Index(inner, index) =>
      if Indexable(inner) { DumpStarts(inner, DumpIndex(index, k)); }
    case If(test, thn, els) =>
      if !Parenthesized(e, test, 2) {
        DumpStarts(test, Cons(Question, Wrap(thn, Parenthesized(e, thn, 2),
                                             Cons(Colon, Wrap(els, Parenthesized(e, els, 2), k)))));
      }
    case _ =>
  }

  // The reading of an expression in front of k: the whole of it, and then the operators of k.
  predicate Reads(e: Expr, printed: Tokens, min: int, k: Tokens, tight: bool) {
    ParseExpr(printed, min, tight) == ParseTail(Read(e, tight), min, k, tight)
  }

  lemma {:induction false} ReadExpr(e: Expr, min: int, k: Tokens, tight: bool)
    requires WellFormed(e) && Follow(k) && 0 <= min
    requires min <= Outside(e, tight) && HeadLevel(k) < Right(e, tight)
    ensures Reads(e, Dump(e, k), min, k, tight)
    decreases e, 3
  {
    hide ParseTail, ParsePrimary, Dump, Read, HeadLevel;
    if e.Infix? {
      ReadInfix(e, min, k, tight);
    } else if e.Postfix? {
      ReadPostfix(e, min, k, tight);
    } else if e.Prefix? {
      if Regroups(e, tight) { ReadRegrouped(e, min, k, tight); } else { ReadPrefixed(e, min, k, tight); }
    } else if e.If? {
      ReadIf(e, min, k, tight);
    } else {
      ReadOperand(e, k, tight);
    }
  }

  lemma {:induction false} ReadWrapped(e: Expr, parens: bool, min: int, k: Tokens, tight: bool)
    requires WellFormed(e) && Follow(k) && 0 <= min
    requires parens || (min <= Outside(e, tight) && HeadLevel(k) < Right(e, tight))
    ensures Reads(e, Wrap(e, parens, k), min, k, tight)
    ensures HeadLevel(k) < min ==> ParseExpr(Wrap(e, parens, k), min, tight) == Some((Read(e, tight), k))
    decreases e, 5
  {
    hide ParseTail, ParsePrimary, ParseSuffix;
    if HeadLevel(k) < min { TailStops(Read(e, tight), min, k, tight); }
    if parens {
      ReadParens(e, k, tight);
      NoIndex(k, tight);
    } else {
      ReadExpr(e, min, k, tight);
    }
  }

  // Parentheses, whatever follows them.
  lemma {:induction false} ReadParens(e: Expr, k: Tokens, tight: bool)
    requires WellFormed(e)
    ensures ParsePrimary(Wrap(e, true, k), tight) == ParseSuffix(Read(e, tight), k, tight)
    decreases e, 4
  {
    hide ParseTail, ParseExpr, ParseSuffix, Dump, Read, Outside, Right, WellFormed;
    var k1 := Cons(RParen, k);
    DumpStarts(e, k1);
    AlwaysFits(e, tight);
    ReadExpr(e, 0, k1, tight);
    TailStops(Read(e, tight), 0, k1, tight);
    assert ParsePrimary(Wrap(e, true, k), tight) == ParseParen(Dump(e, k1), tight);
  }

  // Where an operand is printed without parentheses, its levels fit its place.
  lemma AlwaysFits(e: Expr, tight: bool)
    ensures 0 <= Outside(e, tight) && 0 <= Right(e, tight)
  {
    hide Read;
  }

  lemma InfixOperandsFit(e: Expr, tight: bool)
    requires e.Infix? && WellFormed(e)
    ensures Parenthesized(e, e.left, -1)
         || (OpPrec(e.op).0 <= Outside(e.left, tight) && OpPrec(e.op).0 < Right(e.left, tight))
    ensures Parenthesized(e, e.right, 1)
         || ((if OpPrec(e.op).1 == 1 then OpPrec(e.op).0 else OpPrec(e.op).0 + 1) <= Outside(e.right, tight)
             && Right(e, tight) <= Right(e.right, tight))
    ensures Outside(e, tight) == OpPrec(e.op).0
    ensures Right(e, tight) == if OpPrec(e.op).1 == -1 then OpPrec(e.op).0 + 1 else OpPrec(e.op).0
  {
    hide Read;
  }

  lemma PostfixOperandFits(e: Expr, tight: bool)
    requires e.Postfix? && WellFormed(e)
    ensures Parenthesized(e, e.inner, 1) || (13 <= Outside(e.inner, tight) && 12 < Right(e.inner, tight))
  {
    hide Read;
  }

  lemma RegroupsWhen(e: Expr, tight: bool)
    requires e.Prefix?
    ensures Regroups(e, tight) <==> !tight && IsBump(e.op) && Read(e.inner, tight).Postfix?
  {
  }

  lemma PostfixStays(e: Expr, tight: bool)
    requires e.Postfix?
    ensures Read(e, tight).Postfix?
  {
  }

  lemma PrefixLevels(op: OpType, tight: bool)
    requires IsPrefix(op)
    ensures OperandMin(SymbolOf(op), tight)
         == if op == Not then 5 else if op == Minus || op == Neg || tight then 12 else 13
  {
  }

  lemma PrefixOperandFits(e: Expr, tight: bool)
    requires e.Prefix? && WellFormed(e) && !Regroups(e, tight)
    ensures Parenthesized(e, e.inner, -1)
         || (OperandMin(SymbolOf(e.op), tight) <= Outside(e.inner, tight) && OperandMin(SymbolOf(e.op), tight) <= Right(e.inner, tight))
    ensures Right(e, tight) == OperandMin(SymbolOf(e.op), tight)
  {
    hide Read, SymbolOf, GrammarPrec, OperandMin;
    PrefixLevels(e.op, tight);
    if e.inner.Prefix? { PrefixLevels(e.inner.op, tight); }
    RegroupsWhen(e, tight);
    if e.inner.Prefix? { RegroupsWhen(e.inner, tight); }
    if e.inner.Postfix? { PostfixStays(e.inner, tight); }
  }

  lemma IfOperandFits(e: Expr, inner: Expr, tight: bool)
    requires e.If? && WellFormed(inner)
    ensures Parenthesized(e, inner, 2) || (2 <= Outside(inner, tight) && 1 < Right(inner, tight))
  {
    hide Read;
  }

  lemma CastOperandFits(e: Expr, tight: bool)
    requires e.Cast? && WellFormed(e.inner)
    ensures Parenthesized(e, e.inner, 1) || (14 <= Outside(e.inner, tight) && 14 <= Right(e.inner, tight))
  {
    hide Read;
  }

  // ---- one step of the reader ----

  lemma TailStops(e: Expr, min: int, k: Tokens, tight: bool)
    requires 0 <= min && HeadLevel(k) < min
    ensures ParseTail(e, min, k, tight) == Some((e, k))
  {
    hide ParseExpr;
  }

  lemma InfixHead(op: OpType, k: Tokens)
    requires IsInfix(op)
    ensures HeadLevel(Cons(Sym(SymbolOf(op)), k)) == OpPrec(op).0
  {
    assert InfixOf(SymbolOf(op)) == Some(op);
  }

  lemma TailInfix(left: Expr, op: OpType, right: Expr, min: int, tail: Tokens, k: Tokens, tight: bool)
    requires IsInfix(op) && 0 <= min <= OpPrec(op).0
    requires HeadLevel(k) < if OpPrec(op).1 == -1 then OpPrec(op).0 + 1 else OpPrec(op).0
    requires ParseExpr(tail, if OpPrec(op).1 == 1 then OpPrec(op).0 else OpPrec(op).0 + 1, tight) == Some((right, k))
    ensures ParseTail(left, min, Cons(Sym(SymbolOf(op)), tail), tight)
         == ParseTail(Infix(op, left, right), min, k, tight)
  {
    hide ParseExpr;
    assert InfixOf(SymbolOf(op)) == Some(op) && PostfixOf(SymbolOf(op)) == None;
  }

  lemma TailPostfix(e: Expr, op: OpType, min: int, k: Tokens, tight: bool)
    requires IsPostfix(op) && 0 <= min <= 12
    ensures ParseTail(e, min, Cons(Sym(SymbolOf(op)), k), tight) == ParseTail(Postfix(op, e), min, k, tight)
  {
    hide ParseExpr;
  }

  lemma TailIf(test: Expr, thn: Expr, els: Expr, min: int, k1: Tokens, k3: Tokens, k: Tokens, tight: bool)
    requires 0 <= min <= 1 && HeadLevel(k) < 1
    requires ParseExpr(k1, 0, tight) == Some((thn, Cons(Colon, k3)))
    requires ParseExpr(k3, 2, tight) == Some((els, k))
    ensures ParseTail(test, min, Cons(Question, k1), tight) == ParseTail(If(test, thn, els), min, k, tight)
  {
    hide ParseExpr;
  }

  lemma PrimaryPrefix(op: OpType, inner: Expr, min: int, tail: Tokens, k: Tokens, tight: bool)
    requires IsPrefix(op) && ParseExpr(tail, OperandMin(SymbolOf(op), tight), tight) == Some((inner, k))
    ensures ParseExpr(Cons(Sym(SymbolOf(op)), tail), min, tight) == ParseTail(Prefix(op, inner), min, k, tight)
  {
    hide ParseTail, OperandMin, GrammarPrec, HeadLevel;
    assert PrefixOf(SymbolOf(op)) == Some(op);
    assert ParsePrimary(Cons(Sym(SymbolOf(op)), tail), tight) == Some((Prefix(op, inner), k));
  }

  lemma NoIndex(k: Tokens, tight: bool)
    requires k == Nil || !(k.head.Dot? || k.head.LBracket?)
    ensures ParseIndex(k, tight) == Some(([], k))
    ensures forall e :: ParseSuffix(e, k, tight) == Some((e, k))
  {
    hide ParseExpr;
  }

  lemma NameAlone(s: string, k: Tokens, tight: bool)
    requires Follow(k)
    ensures ParseName(s, k, tight) == Some((Ref(s), k))
  {
    hide ParseExpr;
    NoIndex(k, tight);
    assert ParseName(s, k, tight) == ParseArrayName(s, k, tight);
  }

  lemma VoidParens(k: Tokens, tight: bool)
    ensures ParseParen(Cons(RParen, k), tight) == Some((ConstVoid, k))
  {
    hide ParseExpr, ParseSuffix;
  }

  lemma NameScoped(s: string, m: string, k: Tokens, tight: bool)
    requires Follow(k)
    ensures ParseName(s, Cons(Scope, Cons(Name(m), k)), tight) == Some((StaticRef(s, m), k))
  {
    hide ParseExpr, ParseArgs;
    var k1 := Cons(Name(m), k);
    assert ParseName(s, Cons(Scope, k1), tight) == ParseMember(s, k1, tight);
  }

  lemma NameIndexed(s: string, k: Tokens, tight: bool)
    requires k.Cons? && (k.head.Dot? || k.head.LBracket?)
    ensures ParseName(s, k, tight) == ParseArrayName(s, k, tight)
  {
    hide ParseExpr, ParseIndex;
  }

  lemma NameMember(s: string, m: string, args: seq<Expr>, k1: Tokens, k: Tokens, tight: bool)
    requires ParseArgs(k1, tight) == Some((args, k))
    ensures ParseName(s, Cons(Scope, Cons(Name(m), Cons(LParen, k1))), tight)
         == ParseSuffix(Static(s, m, args), k, tight)
  {
    hide ParseExpr, ParseArgs, ParseSuffix;
    var k2 := Cons(Name(m), Cons(LParen, k1));
    assert ParseName(s, Cons(Scope, k2), tight) == ParseMember(s, k2, tight);
  }

  // ---- one construct ----

  lemma {:induction false} ReadInfix(e: Expr, min: int, k: Tokens, tight: bool)
    requires e.Infix? && WellFormed(e) && Follow(k) && 0 <= min
    requires min <= Outside(e, tight) && HeadLevel(k) < Right(e, tight)
    ensures Reads(e, Dump(e, k), min, k, tight)
    decreases e, 2
  {
    hide ParseTail, ParseExpr, HeadLevel, Outside, Right, Parenthesized;
    var (level, assoc) := OpPrec(e.op);
    var tail := Wrap(e.right, Parenthesized(e, e.right, 1), k);
    InfixOperandsFit(e, tight);
    InfixHead(e.op, tail);
    ReadWrapped(e.left, Parenthesized(e, e.left, -1), min, Cons(Sym(SymbolOf(e.op)), tail), tight);
    ReadWrapped(e.right, Parenthesized(e, e.right, 1), if assoc == 1 then level else level + 1, k, tight);
    TailInfix(Read(e.left, tight), e.op, Read(e.right, tight), min, tail, k, tight);
  }

  lemma {:induction false} ReadPostfix(e: Expr, min: int, k: Tokens, tight: bool)
    requires e.Postfix? && WellFormed(e) && Follow(k) && 0 <= min <= 12
    ensures Reads(e, Dump(e, k), min, k, tight)
    decreases e, 2
  {
    hide ParseTail, ParseExpr, Outside, Right, Parenthesized;
    PostfixOperandFits(e, tight);
    ReadWrapped(e.inner, Parenthesized(e, e.inner, 1), min, Cons(Sym(SymbolOf(e.op)), k), tight);
    TailPostfix(Read(e.inner, tight), e.op, min, k, tight);
  }

  lemma {:induction false} ReadPrefixed(e: Expr, min: int, k: Tokens, tight: bool)
    requires e.Prefix? && !Regroups(e, tight) && WellFormed(e) && Follow(k) && 0 <= min
    requires HeadLevel(k) < Right(e, tight)
    ensures Reads(e, Dump(e, k), min, k, tight)
    decreases e, 2
  {
    hide ParseTail, ParseExpr, HeadLevel, Outside, Right, Parenthesized;
    var parens := Parenthesized(e, e.inner, -1);
    PrefixOperandFits(e, tight);
    ReadWrapped(e.inner, parens, OperandMin(SymbolOf(e.op), tight), k, tight);
    PrimaryPrefix(e.op, Read(e.inner, tight), min, Wrap(e.inner, parens, k), k, tight);
  }

  // What a prefix increment's operand leaves over: the operand without its postfix operator.
  lemma {:induction false} ReadStripped(e: Expr, k: Tokens)
    requires WellFormed(e) && Read(e, false).Postfix?
    ensures IsPostfix(Read(e, false).op)
    ensures ParseExpr(Dump(e, k), 13, false)
         == Some((Read(e, false).inner, Cons(Sym(SymbolOf(Read(e, false).op)), k)))
    decreases e, 2
  {
    hide ParseTail, ParseExpr, Outside, Right, Parenthesized;
    if e.Postfix? {
      PostfixOperandFits(e, false);
      ReadWrapped(e.inner, Parenthesized(e, e.inner, 1), 13, Cons(Sym(SymbolOf(e.op)), k), false);
    } else {
      StripPrefix(e, k);
    }
  }

  lemma {:induction false} StripPrefix(e: Expr, k: Tokens)
    requires WellFormed(e) && e.Prefix? && Regroups(e, false)
    ensures IsPostfix(Read(e, false).op)
    ensures ParseExpr(Dump(e, k), 13, false)
         == Some((Read(e, false).inner, Cons(Sym(SymbolOf(Read(e, false).op)), k)))
    decreases e, 1
  {
    hide ParseTail, ParseExpr, Regroups, Dump, Read, WellFormed;
    BumpedFormed(e);
    BumpedBare(e, k);
    var r := Read(e.inner, false);
    var k1 := Cons(Sym(SymbolOf(r.op)), k);
    ReadStripped(e.inner, k);
    PrimaryPrefix(e.op, r.inner, 13, Dump(e.inner, k), k1, false);
    TailStops(Prefix(e.op, r.inner), 13, k1, false);
  }

  lemma BumpedFormed(e: Expr)
    requires WellFormed(e) && e.Prefix?
    ensures WellFormed(e.inner) && IsPrefix(e.op)
  {
  }

  // A regrouped increment's operand is printed without parentheses.
  lemma BumpedBare(e: Expr, k: Tokens)
    requires WellFormed(e) && e.Prefix? && Regroups(e, false)
    ensures IsBump(e.op) && Read(e.inner, false).Postfix?
    ensures Read(e, false) == Postfix(Read(e.inner, false).op, Prefix(e.op, Read(e.inner, false).inner))
    ensures Dump(e, k) == Cons(Sym(SymbolOf(e.op)), Dump(e.inner, k))
  {
    hide Regroups, DumpArgs, DumpIndex, ReadAll, SymbolOf;
    RegroupsWhen(e, false);
    if e.inner.Prefix? { RegroupsWhen(e.inner, false); }
    PrintedBare(e, k);
  }

  lemma PrintedBare(e: Expr, k: Tokens)
    requires WellFormed(e) && e.Prefix? && IsBump(e.op) && (e.inner.Postfix? || (e.inner.Prefix? && IsBump(e.inner.op)))
    ensures Dump(e, k) == Cons(Sym(SymbolOf(e.op)), Dump(e.inner, k))
  {
  }

  lemma {:induction false} ReadRegrouped(e: Expr, min: int, k: Tokens, tight: bool)
    requires Regroups(e, tight) && WellFormed(e) && Follow(k) && 0 <= min <= 12
    ensures Reads(e, Dump(e, k), min, k, tight)
    decreases e, 2
  {
    hide ParseTail, ParseExpr, OperandMin, GrammarPrec, Outside, Right;
    var r := Read(e.inner, false);
    PrefixLevels(e.op, false);
    ReadStripped(e.inner, k);
    BumpedBare(e, k);
    PrimaryPrefix(e.op, r.inner, min, Dump(e.inner, k), Cons(Sym(SymbolOf(r.op)), k), false);
    TailPostfix(Prefix(e.op, r.inner), r.op, min, k, false);
  }

  lemma {:induction false} ReadIf(e: Expr, min: int, k: Tokens, tight: bool)
    requires e.If? && WellFormed(e) && Follow(k) && 0 <= min <= 1 && HeadLevel(k) < 1
    ensures Reads(e, Dump(e, k), min, k, tight)
    decreases e, 2
  {
    hide ParseTail, ParseExpr, Outside, Right, Parenthesized;
    var k3 := Wrap(e.els, Parenthesized(e, e.els, 2), k);
    var k1 := Wrap(e.thn, Parenthesized(e, e.thn, 2), Cons(Colon, k3));
    IfOperandFits(e, e.test, tight);
    IfOperandFits(e, e.thn, tight);
    IfOperandFits(e, e.els, tight);
    ReadWrapped(e.test, Parenthesized(e, e.test, 2), min, Cons(Question, k1), tight);
    ReadWrapped(e.thn, Parenthesized(e, e.thn, 2), 0, Cons(Colon, k3), tight);
    ReadWrapped(e.els, Parenthesized(e, e.els, 2), 2, k, tight);
    TailIf(Read(e.test, tight), Read(e.thn, tight), Read(e.els, tight), min, k1, k3, k, tight);
  }

  // What is read without looking past its own last token, or takes everything to its right.
  lemma {:induction false} ReadOperand(e: Expr, k: Tokens, tight: bool)
    requires !(e.Infix? || e.Postfix? || e.Prefix? || e.If?)
    requires WellFormed(e) && Follow(k) && HeadLevel(k) < Right(e, tight)
    ensures ParsePrimary(Dump(e, k), tight) == Some((Read(e, tight), k))
    decreases e, 2
  {
    hide ParsePrimary, Dump, Read;
    if e.Assign? || e.AssignArray? {
      ReadAssign(e, k, tight);
    } else if e.Cast? {
      ReadCast(e, k, tight);
    } else if Indexable(e) {
      ReadIndexable(e, k, tight);
    } else if e.RefArray? {
      ReadElement(e, k, tight);
    } else {
      ReadAtom(e, k, tight);
    }
  }

  lemma ReadLeaf(e: Expr, tight: bool)
    requires e.Ref? || e.Const? || e.ConstVoid? || e.StaticRef? || e.File? || e.Line?
    ensures Read(e, tight) == e
  {
  }

  lemma ReadAtom(e: Expr, k: Tokens, tight: bool)
    requires e.Ref? || e.Const? || e.ConstVoid? || e.StaticRef? || e.File? || e.Line?
    requires Follow(k)
    ensures ParsePrimary(Dump(e, k), tight) == Some((Read(e, tight), k))
  {
    hide ParseTail, ParseExpr, ParseParen, ParseNew, ParseName, ParseMember, ParseArrayName, Read, HeadLevel;
    ReadLeaf(e, tight);
    if e.Ref? {
      NameAlone(e.name, k, tight);
    } else if e.StaticRef? {
      NameScoped(e.tname, e.name, k, tight);
    } else if e.ConstVoid? {
      VoidParens(k, tight);
    }
  }

  lemma {:induction false} ReadCast(e: Expr, k: Tokens, tight: bool)
    requires e.Cast? && WellFormed(e) && Follow(k) && HeadLevel(k) < 14
    ensures ParsePrimary(Dump(e, k), tight) == Some((Read(e, tight), k))
    decreases e, 1
  {
    hide ParseTail, ParseExpr, Outside, Right, Parenthesized;
    CastOperandFits(e, tight);
    ReadWrapped(e.inner, Parenthesized(e, e.inner, 1), 14, k, tight);
  }

  lemma {:induction false} ReadAssign(e: Expr, k: Tokens, tight: bool)
    requires e.Assign? || e.AssignArray?
    requires WellFormed(e) && Follow(k) && HeadLevel(k) < 0
    ensures ParsePrimary(Dump(e, k), tight) == Some((Read(e, tight), k))
    decreases e, 1
  {
    hide ParseTail, ParseExpr, ParseIndex, Outside, Right, Parenthesized;
    var parens := Parenthesized(e, e.inner, 1);
    AlwaysFits(e.inner, tight);
    ReadWrapped(e.inner, parens, 0, k, tight);
    if e.AssignArray? {
      var k1 := Cons(Equals, Wrap(e.inner, parens, k));
      ReadIndex(e.index, k1, tight);
      NameIndexed(e.name, DumpIndex(e.index, k1), tight);
    }
  }

  lemma {:induction false} ReadElement(e: Expr, k: Tokens, tight: bool)
    requires e.RefArray? && WellFormed(e) && Follow(k)
    ensures ParsePrimary(Dump(e, k), tight) == Some((Read(e, tight), k))
    decreases e, 1
  {
    hide ParseExpr, ParseIndex;
    ReadIndex(e.index, k, tight);
    NameIndexed(e.name, DumpIndex(e.index, k), tight);
  }

  lemma {:induction false} ReadIndexable(e: Expr, k: Tokens, tight: bool)
    requires Indexable(e) && WellFormed(e) && Follow(k)
    ensures ParsePrimary(Dump(e, k), tight) == Some((Read(e, tight), k))
    decreases e, 2, 0
  {
    hide ParsePrimary, ParseSuffix;
    ReadSuffixed(e, k, tight);
    NoIndex(k, tight);
  }

  // A call or an index may itself be indexed, so whatever indexes follow are read with it.
  lemma {:induction false} ReadSuffixed(e: Expr, k: Tokens, tight: bool)
    requires Indexable(e) && WellFormed(e)
    ensures ParsePrimary(Dump(e, k), tight) == ParseSuffix(Read(e, tight), k, tight)
    decreases e, 1
  {
    hide ParseTail, ParseExpr, ParseParen, ParseMember, ParseArrayName, ParseIndex, ParseOneIndex, ParseSuffix, ParseArgs;
    match e
    case Call(_, args) => ReadArgs(args, k, tight);
    case New(_, args) => ReadArgs(args, k, tight);
    case Static(tname, name, args) =>
      ReadArgs(args, k, tight);
      NameMember(tname, name, ReadAll(args, tight), DumpArgs(args, Cons(RParen, k)), k, tight);
    case Index(_, _) => ReadLastIndex(e, k, tight);
  }

  lemma {:induction false} ReadLastIndex(e: Expr, k: Tokens, tight: bool)
    requires e.Index? && WellFormed(e)
    ensures ParsePrimary(Dump(e, k), tight) == ParseSuffix(Read(e, tight), k, tight)
    decreases e, 0
  {
    hide ParseTail, ParseExpr, ParsePrimary, ParseOneIndex;
    var k1 := DumpIndex(e.index, k);
    if Indexable(e.inner) { ReadSuffixed(e.inner, k1, tight); } else { ReadParens(e.inner, k1, tight); }
    ReadOneIndex(e.index[0], k, tight);
    assert e.index[1..] == [] && ReadAll(e.index, tight) == [Read(e.index[0], tight)];
    assert DumpIndex(e.index[1..], k) == k;
  }

  lemma {:induction false} ReadOneIndex(i: Expr, k: Tokens, tight: bool)
    requires i.Field? || WellFormed(i)
    ensures ParseOneIndex(if i.Field? then Dump(i, k) else Cons(LBracket, Dump(i, Cons(RBracket, k))), tight)
         == Some(Some((Read(i, tight), k)))
    decreases i, 4
  {
    hide ParseTail, ParseExpr, Outside, Right, GrammarPrec;
    if !i.Field? {
      AlwaysFits(i, tight);
      ReadExpr(i, 0, Cons(RBracket, k), tight);
      TailStops(Read(i, tight), 0, Cons(RBracket, k), tight);
    }
  }

  lemma {:induction false} ReadIndex(index: seq<Expr>, k: Tokens, tight: bool)
    requires IndexFormed(index) && (k == Nil || !(k.head.Dot? || k.head.LBracket?))
    ensures index != [] ==> DumpIndex(index, k).Cons? && (DumpIndex(index, k).head.Dot? || DumpIndex(index, k).head.LBracket?)
    ensures ParseIndex(DumpIndex(index, k), tight) == Some((ReadAll(index, tight), k))
    decreases index, 0
  {
    if index != [] {
      ReadOneIndex(index[0], DumpIndex(index[1..], k), tight);
      ReadIndex(index[1..], k, tight);
    }
  }

  lemma {:induction false} ReadArgs(args: seq<Expr>, k: Tokens, tight: bool)
    requires ArgsFormed(args)
    ensures ParseArgs(DumpArgs(args, Cons(RParen, k)), tight) == Some((ReadAll(args, tight), k))
    decreases args, 1
  {
    if args != [] {
      ReadArgList(args, k, tight);
    }
  }

  lemma {:induction false} ReadArgList(args: seq<Expr>, k: Tokens, tight: bool)
    requires ArgsFormed(args) && args != []
    ensures ParseArgList(DumpArgs(args, Cons(RParen, k)), tight) == Some((ReadAll(args, tight), k))
    ensures DumpArgs(args, Cons(RParen, k)).Cons? && DumpArgs(args, Cons(RParen, k)).head != RParen
    decreases args, 0
  {
    hide ParseExpr, Dump, ArgFormed, Read;
    if |args| == 1 {
      ReadArg(args[0], Cons(RParen, k), tight);
      assert args[1..] == [] && ReadAll(args, tight) == [Read(args[0], tight)];
    } else {
      ReadArg(args[0], Cons(Comma, DumpArgs(args[1..], Cons(RParen, k))), tight);
      ReadArgList(args[1..], k, tight);
    }
  }

  lemma {:induction false} ReadArg(arg: Expr, k: Tokens, tight: bool)
    requires ArgFormed(arg) && k.Cons? && (k.head == Comma || k.head == RParen)
    ensures Dump(arg, k).Cons? && Dump(arg, k).head != RParen
    ensures Dump(arg, k).head == Sym(SAnd) <==> arg.PassRef?
    ensures arg.PassRef? ==> Read(arg, tight) == PassRef(Read(arg.inner, tight))
    ensures ParseExpr(if arg.PassRef? then Dump(arg, k).tail else Dump(arg, k), 0, tight)
         == Some((Read(if arg.PassRef? then arg.inner else arg, tight), k))
    decreases arg, 4
  {
    hide ParseTail, ParseExpr, Parenthesized;
    if arg.PassRef? {
      AlwaysFits(arg.inner, tight);
      ReadWrapped(arg.inner, Parenthesized(arg, arg.inner, 0), 0, k, tight);
    } else {
      DumpStarts(arg, k);
      AlwaysFits(arg, tight);
      ReadExpr(arg, 0, k, tight);
      TailStops(Read(arg, tight), 0, k, tight);
    }
  }

  // ---- main results ----

  lemma {:induction false} ReadTight(e: Expr)
    ensures Read(e, true) == e
    decreases e, 1
  {
    hide ReadAll;
    match e
    case Assign(_, inner) => ReadTight(inner);
    case AssignArray(_, index, inner) => ReadAllTight(index); ReadTight(inner);
    case Cast(_, inner) => ReadTight(inner);
    case Call(_, args) => ReadAllTight(args);
    case New(_, args) => ReadAllTight(args);
    case Static(_, _, args) => ReadAllTight(args);
    case RefArray(_, index) => ReadAllTight(index);
    case Infix(_, left, right) => ReadTight(left); ReadTight(right);
    case Postfix(_, inner) => ReadTight(inner);
    case Prefix(_, inner) => ReadTight(inner);
    case Index(inner, index) => ReadTight(inner); ReadAllTight(index);
    case If(test, thn, els) => ReadTight(test); ReadTight(thn); ReadTight(els);
    case PassRef(inner) => ReadTight(inner);
    case _ =>
  }

  lemma {:induction false} ReadAllTight(es: seq<Expr>)
    ensures ReadAll(es, true) == es
    decreases es, 0
  {
    if es != [] { ReadTight(es[0]); ReadAllTight(es[1..]); }
  }

  // The printed form is always read as exactly one expression, and this is the one.
  lemma PrintedIsRead(e: Expr, tight: bool)
    requires WellFormed(e)
    ensures Parse(Dump(e, Nil), tight) == Some(Read(e, tight))
  {
    hide ParseExpr;
    AlwaysFits(e, tight);
    ReadWrapped(e, false, 0, Nil, tight);
    assert Wrap(e, false, Nil) == Dump(e, Nil);
  }

  // With postfix operators tighter than prefix increments, printing loses nothing.
  lemma PrintedReadsBack(e: Expr)
    requires WellFormed(e)
    ensures Parse(Dump(e, Nil), true) == Some(e)
  {
    hide Parse, Dump, Read;
    PrintedIsRead(e, true);
    ReadTight(e);
  }

  lemma UniqueReadability(e1: Expr, e2: Expr)
    requires WellFormed(e1) && WellFormed(e2)
    requires Dump(e1, Nil) == Dump(e2, Nil)
    ensures e1 == e2
  {
    hide Parse, Dump;
    PrintedReadsBack(e1);
    PrintedReadsBack(e2);
  }

  // No prefix increment stands directly on a postfix operator.
  predicate Unbumped(e: Expr)
    decreases e, 0
  {
    match e
    case Assign(_, inner) => Unbumped(inner)
    case AssignArray(_, index, inner) => AllUnbumped(index) && Unbumped(inner)
    case Cast(_, inner) => Unbumped(inner)
    case Call(_, args) => AllUnbumped(args)
    case New(_, args) => AllUnbumped(args)
    case Static(_, _, args) => AllUnbumped(args)
    case RefArray(_, index) => AllUnbumped(index)
    case Infix(_, left, right) => Unbumped(left) && Unbumped(right)
    case Postfix(_, inner) => Unbumped(inner)
    case Prefix(op, inner) => !(IsBump(op) && inner.Postfix?) && Unbumped(inner)
    case Index(inner, index) => Unbumped(inner) && AllUnbumped(index)
    case If(test, thn, els) => Unbumped(test) && Unbumped(thn) && Unbumped(els)
    case PassRef(inner) => Unbumped(inner)
    case _ => true
  }

  predicate AllUnbumped(es: seq<Expr>)
    decreases es, 0
  {
    forall i :: 0 <= i < |es| ==> Unbumped(es[i])
  }

  lemma {:induction false} ReadLoose(e: Expr)
    ensures Read(e, false) == e <==> Unbumped(e)
    decreases e, 1
  {
    hide ReadAll, AllUnbumped;
    match e
    case Assign(_, inner) => ReadLoose(inner);
    case AssignArray(_, index, inner) => ReadAllLoose(index); ReadLoose(inner);
    case Cast(_, inner) => ReadLoose(inner);
    case Call(_, args) => ReadAllLoose(args);
    case New(_, args) => ReadAllLoose(args);
    case Static(_, _, args) => ReadAllLoose(args);
    case RefArray(_, index) => ReadAllLoose(index);
    case Infix(_, left, right) => ReadLoose(left); ReadLoose(right);
    case Postfix(_, inner) => ReadLoose(inner);
    case Prefix(_, inner) => ReadLoose(inner);
    case Index(inner, index) => ReadLoose(inner); ReadAllLoose(index);
    case If(test, thn, els) => ReadLoose(test); ReadLoose(thn); ReadLoose(els);
    case PassRef(inner) => ReadLoose(inner);
    case _ =>
  }

  lemma {:induction false} ReadAllLoose(es: seq<Expr>)
    ensures ReadAll(es, false) == es <==> AllUnbumped(es)
    decreases es, 0
  {
    if es != [] {
      ReadLoose(es[0]);
      ReadAllLoose(es[1..]);
      assert es == [es[0]] + es[1..];
      assert AllUnbumped(es) <==> Unbumped(es[0]) && AllUnbumped(es[1..]) by {
        if Unbumped(es[0]) && AllUnbumped(es[1..]) {
          forall i | 0 <= i < |es| ensures Unbumped(es[i]) {
            if i > 0 { assert es[i] == es[1..][i - 1]; }
          }
        }
      }
      if ReadAll(es, false) == es {
        assert ReadAll(es, false)[0] == es[0] && ReadAll(es, false)[1..] == es[1..];
      }
    }
  }

  // Under the grammar's declared associativity the printed form comes back as the same tree
  // exactly when no prefix increment stands directly on a postfix operator.
  lemma GrammarReadsBack(e: Expr)
    requires WellFormed(e)
    ensures Parse(Dump(e, Nil), false) == Some(e) <==> Unbumped(e)
  {
    hide Parse, Dump, Read;
    PrintedIsRead(e, false);
    ReadLoose(e);
  }

  // Two index operators merged into one node print like two nodes, so a tree with such a node is
  // not recovered; the grammar's own actions never build one.
  lemma MergedIndexPrintsAlike(inner: Expr, i: Expr, j: Expr)
    requires Indexable(inner) && WellFormed(inner) && WellFormed(i) && WellFormed(j)
    ensures Dump(Index(inner, [i, j]), Nil) == Dump(Index(Index(inner, [i]), [j]), Nil)
    ensures Index(inner, [i, j]) != Index(Index(inner, [i]), [j])
  {
    var last := DumpIndex([j], Nil);
    assert [i, j][1..] == [j] && [i][1..] == [];
    assert DumpIndex([i][1..], last) == last;
    assert DumpIndex([i], last) == DumpIndex([i, j], Nil);
    assert Dump(Index(inner, [i]), last) == Wrap(inner, false, DumpIndex([i], last));
    assert |[i, j]| != |[j]|;
  }

  // ---- the printer's table and the grammar's ----

  // The printer's precedences are the lines of the grammar's declarations, and where it takes an
  // operator to associate to a side the grammar declares that side.
  lemma TablesAgree(op: OpType)
    ensures OpPrec(op).0 == if op == PreInc || op == PreDec then PrefixLine(SymbolOf(op)) else GrammarPrec(SymbolOf(op)).0
    ensures ExprPrec(Prefix(op, Ref(""))).0 == PrefixLine(SymbolOf(op))
    ensures GrammarPrec(SymbolOf(op)).1 == match OpPrec(op).1 case -1 => LeftAssoc case 0 => NonAssoc case _ => RightAssoc
  {
  }

  // An operand that the grammar reads without parentheses: it binds tighter, or as tightly on the
  // side to which the operator associates.
  predicate BareOperand(op: OpType, inner: Expr, side: Assoc) {
    inner.Infix? ==>
      var (p, q) := (GrammarPrec(SymbolOf(op)), GrammarPrec(SymbolOf(inner.op)));
      q.0 > p.0 || (q.0 == p.0 && q.1 == side)
  }

  predicate Bare(e: Expr) {
    match e
    case Ref(_) => true
    case Const(_, _) => true
    case Infix(op, left, right) =>
      IsInfix(op) && Bare(left) && Bare(right) && BareOperand(op, left, LeftAssoc) && BareOperand(op, right, RightAssoc)
    case _ => false
  }

  // Names, literals and operators as they stand, without any parenthesis.
  function Flat(e: Expr, k: Tokens): Tokens
    requires Bare(e)
  {
    match e
    case Ref(name) => Cons(Name(name), k)
    case Const(kind, text) => Cons(Literal(kind, text), k)
    case Infix(op, left, right) => Flat(left, Cons(Sym(SymbolOf(op)), Flat(right, k)))
  }

  // No parenthesis is printed where the grammar needs none.
  lemma {:induction false} BareIsFlat(e: Expr, k: Tokens)
    requires Bare(e)
    ensures Dump(e, k) == Flat(e, k)
    decreases e
  {
    if e.Infix? {
      BareIsFlat(e.right, k);
      BareIsFlat(e.left, Cons(Sym(SymbolOf(e.op)), Flat(e.right, k)));
      BareUnwrapped(e);
    }
  }

  lemma BareUnwrapped(e: Expr)
    requires e.Infix? && Bare(e)
    ensures !Parenthesized(e, e.left, -1) && !Parenthesized(e, e.right, 1)
  {
    hide SymbolOf, GrammarPrec, OpPrec;
    InfixLevels(e.op);
    if e.left.Infix? { InfixLevels(e.left.op); }
    if e.right.Infix? { InfixLevels(e.right.op); }
    assert BareOperand(e.op, e.left, LeftAssoc) && BareOperand(e.op, e.right, RightAssoc);
  }

  lemma InfixLevels(op: OpType)
    requires IsInfix(op)
    ensures OpPrec(op).0 == GrammarPrec(SymbolOf(op)).0 < 255
    ensures GrammarPrec(SymbolOf(op)).1 == LeftAssoc ==> OpPrec(op).1 == -1
    ensures GrammarPrec(SymbolOf(op)).1 == RightAssoc ==> OpPrec(op).1 == 1
  {
  }
}

/** expr_dump as it runs: tokens are appended to the output stream one at a time. */
module PrinterOutput {
  import opened Syntax
  import opened Printer

  // The tokens written so far, in front of those still to come.
  function Prepend(written: seq<Token>, k: Tokens): Tokens {
    if written == [] then k else Prepend(written[..|written| - 1], Cons(written[|written| - 1], k))
  }

  lemma PrependOne(written: seq<Token>, t: Token, k: Tokens)
    ensures Prepend(written + [t], k) == Prepend(written, Cons(t, k))
  {
    assert (written + [t])[..|written|] == written;
  }

  lemma {:induction false} PrependInjective(a: seq<Token>, b: seq<Token>)
    requires Prepend(a, Nil) == Prepend(b, Nil)
    ensures a == b
  {
    PrependList(a, Nil);
    PrependList(b, Nil);
    assert a + [] == a && b + [] == b;
  }

  function Listed(k: Tokens): seq<Token> {
    match k
    case Nil => []
    case Cons(t, tail) => [t] + Listed(tail)
  }

  lemma {:induction false} PrependList(a: seq<Token>, k: Tokens)
    ensures Listed(Prepend(a, k)) == a + Listed(k)
    decreases |a|
  {
    if a != [] {
      var n := |a| - 1;
      PrependList(a[..n], Cons(a[n], k));
      assert a[..n] + [a[n]] == a;
      assert a[..n] + ([a[n]] + Listed(k)) == a + Listed(k);
    } else {
      assert a + Listed(k) == Listed(k);
    }
  }

  // k stands for whatever is written afterwards; the output does not depend on it.
  class Stdout {
    var out: seq<Token>

    constructor ()
      ensures out == []
    {
      out := [];
    }

    method Put(t: Token, ghost k: Tokens)
      modifies this
      ensures Prepend(out, k) == Prepend(old(out), Cons(t, k))
    {
      out := out + [t];
      PrependOne(old(out), t, k);
    }

    method ExprDump(e: Expr, ghost k: Tokens)
      modifies this
      ensures Prepend(out, k) == Prepend(old(out), Dump(e, k))
      decreases e, 1
    {
      match e
      case Assign(_, _) => DumpAssign(e, k);
      case AssignArray(_, _, _) => DumpAssign(e, k);
      case Cast(typename, inner) =>
        Put(CastTo(typename), Wrap(inner, Parenthesized(e, inner, 1), k));
        Parenthesis(e, inner, 1, k);
      case Call(_, _) => DumpCall(e, k);
      case New(_, _) => DumpCall(e, k);
      case Static(_, _, _) => DumpCall(e, k);
      case Ref(name) => Put(Name(name), k);
      case RefArray(name, index) =>
        Put(Name(name), DumpIndex(index, k));
        ExprDumpIndex(index, k);
      case Index(inner, index) => DumpIndexed(inner, index, k);
      case Const(kind, text) => Put(Literal(kind, text), k);
      case ConstVoid =>
        Put(LParen, Cons(RParen, k));
        Put(RParen, k);
      case Infix(op, left, right) =>
        ghost var k1 := Wrap(right, Parenthesized(e, right, 1), k);
        Parenthesis(e, left, -1, Cons(Sym(SymbolOf(op)), k1));
        Put(Sym(SymbolOf(op)), k1);
        Parenthesis(e, right, 1, k);
      case Postfix(op, inner) =>
        Parenthesis(e, inner, 1, Cons(Sym(SymbolOf(op)), k));
        Put(Sym(SymbolOf(op)), k);
      case Prefix(op, inner) =>
        Put(Sym(SymbolOf(op)), Wrap(inner, Parenthesized(e, inner, -1), k));
        Parenthesis(e, inner, -1, k);
      case Field(name) =>
        Put(Dot, Cons(Name(name), k));
        Put(Name(name), k);
      case StaticRef(tname, name) =>
        Put(Name(tname), Cons(Scope, Cons(Name(name), k)));
        Put(Scope, Cons(Name(name), k));
        Put(Name(name), k);
      case If(_, _, _) => DumpIf(e, k);
      case PassRef(inner) =>
        Put(Sym(SAnd), Wrap(inner, Parenthesized(e, inner, 0), k));
        Parenthesis(e, inner, 0, k);
      case File => Put(KwFile, k);
      case Line => Put(KwLine, k);
      case _ =>
    }

    method DumpAssign(e: Expr, ghost k: Tokens)
      requires e.Assign? || e.AssignArray?
      modifies this
      ensures Prepend(out, k) == Prepend(old(out), Dump(e, k))
      decreases e, 0
    {
      match e
      case Assign(name, inner) =>
        ghost var k1 := Wrap(inner, Parenthesized(e, inner, 1), k);
        Put(Name(name), Cons(Equals, k1));
        Put(Equals, k1);
        Parenthesis(e, inner, 1, k);
      case AssignArray(name, index, inner) =>
        ghost var k1 := Wrap(inner, Parenthesized(e, inner, 1), k);
        Put(Name(name), DumpIndex(index, Cons(Equals, k1)));
        ExprDumpIndex(index, Cons(Equals, k1));
        Put(Equals, k1);
        Parenthesis(e, inner, 1, k);
    }

    method DumpCall(e: Expr, ghost k: Tokens)
      requires e.Call? || e.New? || e.Static?
      modifies this
      ensures Prepend(out, k) == Prepend(old(out), Dump(e, k))
      decreases e, 0
    {
      ghost var k2 := Cons(LParen, DumpArgs(e.args, Cons(RParen, k)));
      if e.New? {
        Put(KwNew, Cons(Name(e.name), k2));
      } else if e.Static? {
        Put(Name(e.tname), Cons(Scope, Cons(Name(e.name), k2)));
        Put(Scope, Cons(Name(e.name), k2));
      }
      Put(Name(e.name), k2);
      Put(LParen, k2.tail);
      ExprDumpArgs(e.args, Cons(RParen, k));
      Put(RParen, k);
    }

    method DumpIf(e: Expr, ghost k: Tokens)
      requires e.If?
      modifies this
      ensures Prepend(out, k) == Prepend(old(out), Dump(e, k))
      decreases e, 0
    {
      ghost var k2 := Wrap(e.els, Parenthesized(e, e.els, 2), k);
      ghost var k1 := Wrap(e.thn, Parenthesized(e, e.thn, 2), Cons(Colon, k2));
      Parenthesis(e, e.test, 2, Cons(Question, k1));
      Put(Question, k1);
      Parenthesis(e, e.thn, 2, Cons(Colon, k2));
      Put(Colon, k2);
      Parenthesis(e, e.els, 2, k);
    }

    method DumpIndexed(inner: Expr, index: seq<Expr>, ghost k: Tokens)
      modifies this
      ensures Prepend(out, k) == Prepend(old(out), Wrap(inner, !Indexable(inner), DumpIndex(index, k)))
      decreases Index(inner, index), 0
    {
      ghost var k1 := DumpIndex(index, k);
      if !Indexable(inner) {
        Put(LParen, Dump(inner, Cons(RParen, k1)));
      }
      ExprDump(inner, if Indexable(inner) then k1 else Cons(RParen, k1));
      if !Indexable(inner) {
        Put(RParen, k1);
      }
      ExprDumpIndex(index, k);
    }

    method Parenthesis(outer: Expr, inner: Expr, assoc: int, ghost k: Tokens)
      modifies this
      ensures Prepend(out, k) == Prepend(old(out), Wrap(inner, Parenthesized(outer, inner, assoc), k))
      decreases inner, 2
    {
      if Parenthesized(outer, inner, assoc) {
        Put(LParen, Dump(inner, Cons(RParen, k)));
        ExprDump(inner, Cons(RParen, k));
        Put(RParen, k);
      } else {
        ExprDump(inner, k);
      }
    }

    method ExprDumpArgs(argv: seq<Expr>, ghost k: Tokens)
      modifies this
      ensures Prepend(out, k) == Prepend(old(out), DumpArgs(argv, k))
      decreases argv, 0
    {
      var i := 0;
      while i < |argv|
        invariant 0 <= i <= |argv|
        invariant Prepend(out, DumpArgs(argv[i..], k)) == Prepend(old(out), DumpArgs(argv, k))
      {
        ghost var rest := DumpArgs(argv[i + 1..], k);
        assert argv[i..][1..] == argv[i + 1..];
        ExprDump(argv[i], if i + 1 < |argv| then Cons(Comma, rest) else k);
        if i + 1 < |argv| {
          Put(Comma, rest);
        }
        i := i + 1;
      }
    }

    method ExprDumpIndex(argv: seq<Expr>, ghost k: Tokens)
      modifies this
      ensures Prepend(out, k) == Prepend(old(out), DumpIndex(argv, k))
      decreases argv, 0
    {
      var i := 0;
      while i < |argv|
        invariant 0 <= i <= |argv|
        invariant Prepend(out, DumpIndex(argv[i..], k)) == Prepend(old(out), DumpIndex(argv, k))
      {
        ghost var rest := DumpIndex(argv[i + 1..], k);
        assert argv[i..][1..] == argv[i + 1..];
        if !argv[i].Field? {
          Put(LBracket, Dump(argv[i], Cons(RBracket, rest)));
          ExprDump(argv[i], Cons(RBracket, rest));
          Put(RBracket, rest);
        } else {
          ExprDump(argv[i], rest);
        }
        i := i + 1;
      }
    }
  }
}

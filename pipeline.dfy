/** The passes put together: what the parser builds is what the x86-64
    emitter is given. The parser wraps every function body in a
    `Compound`, and the emitter only has a visitor for `Block`. */
module Pipeline {
  import opened Wrappers
  import opened Tokens
  import opened Lexing
  import opened Ast
  import opened ParserSpec
  import opened ParserProps
  import opened X86Spec
  import opened X86Props

  /** Every function among the declarations has a `Compound` body. */
  predicate CompoundBodies(ds: seq<Node>) {
    forall k :: 0 <= k < |ds| && ds[k].FunctionDecl? ==> ds[k].body.Compound?
  }

  /** A top-level declaration is a constant or a function with a compound
      body. */
  lemma DeclarationShape(s: Stream, i: nat)
    requires Ready(s, i) && PDeclaration(s, i).Ok?
    ensures var d := PDeclaration(s, i).value.0;
      d.ConstDecl? || (d.FunctionDecl? && d.body.Compound?)
  {
    if Cur(s, i).kind == KW_INT {
      FunctionDeclaration(s, i);
    } else {
      ConstDeclaration(s, i);
    }
  }

  /** The declarations loop keeps every function body a `Compound`. */
  lemma {:induction false} DeclarationsCompound(s: Stream, i: nat, acc: seq<Node>)
    requires Ready(s, i) && CompoundBodies(acc)
    ensures PDeclarations(s, i, acc).Ok? ==> CompoundBodies(PDeclarations(s, i, acc).value.0)
    decreases Rank(s, i)
  {
    if Cur(s, i).kind != EOF && PDeclaration(s, i).Ok? {
      var (d, j) := PDeclaration(s, i).value;
      DeclarationShape(s, i);
      var acc' := acc + [d];
      assert CompoundBodies(acc') by {
        forall k | 0 <= k < |acc'| && acc'[k].FunctionDecl?
          ensures acc'[k].body.Compound?
        {
          if k < |acc| {
            assert acc'[k] == acc[k];
          }
        }
      }
      DeclarationsCompound(s, j, acc');
    }
  }

  /** Every program the parser accepts has only `Compound` function
      bodies. */
  lemma ParsedBodiesAreCompound(text: string)
    requires ParseText(text).Ok?
    ensures CompoundBodies(ParseText(text).value.declarations)
  {
    var s := Lex(text, 0);
    assert Ready(s, 0);
    DeclarationsCompound(s, 0, []);
  }

  /** No parsed program with a `main` function makes it through the x86-64
      emitter: the visit of `main`'s body raises. */
  lemma ParsedMainIsNotAssembled(text: string, k: nat)
    requires ParseText(text).Ok?
    requires var ds := ParseText(text).value.declarations;
      k < |ds| && ds[k].FunctionDecl? && ds[k].funcName == "main"
    ensures X86Spec.Generate(ParseText(text).value).Err?
  {
    var ds := ParseText(text).value.declarations;
    ParsedBodiesAreCompound(text);
    CompoundMainInProgram(ds, k, Start);
  }
}

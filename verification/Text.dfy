/** From the text of function bodies to the value a program returns: the text side in front of the whole chain. */
module Text {
  import opened Bytes
  import opened Machine
  import opened Sexpr
  import opened EndToEnd
  import opened Discipline
  import opened Loader
  import S = Source
  import T = TypeTable
  import W = Writer

  /** text is a body's folded instructions as one list, written with these gaps between its tokens. */
  ghost predicate Spelling(text: string, body: seq<S.Ast>, gaps: seq<seq<Gap>>, tail: seq<Gap>)
    requires S.SeqOk(body)
  {
    var ts := Toks(List(S.FoldSeq(body)));
    |gaps| == |ts| && RenderOk(ts, gaps, tail) && text == Render(ts, gaps, tail)
  }

  ghost predicate Spells(text: string, body: seq<S.Ast>)
    requires S.SeqOk(body)
  {
    exists gaps, tail :: Spelling(text, body, gaps, tail)
  }

  /** The forms a text holds, if it is one list and nothing else is in the way. */
  function ReadForms(text: string): Option<seq<Sx>>
  {
    match Lex(text, 0)
    case Tokens(ts) => (match ParseOne(ts, 0).x case Some(List(kids)) => Some(kids) case _ => None)
    case _ => None
  }

  /** However a body is spelled, its forms are read back. */
  lemma SpelledIsRead(text: string, body: seq<S.Ast>)
    requires S.SeqOk(body) && Spells(text, body)
    ensures ReadForms(text) == Some(S.FoldSeq(body))
  {
    hide Lex, Render, RenderOk, ParseOne;
    var gaps, tail :| Spelling(text, body, gaps, tail);
    PrintParse(List(S.FoldSeq(body)), gaps, tail);
  }

  method Read(text: string) returns (kids: Option<seq<Sx>>)
    ensures kids == ReadForms(text)
  {
    var l := Tokenize(text);
    if !l.Tokens? { return None; }
    var r := Parse(l.ts, 0);
    if r.x.None? || !r.x.value.List? { return None; }
    return Some(r.x.value.kids);
  }

  /** Every body is spelled by its text. */
  ghost predicate AllSpelled(s: Src, texts: seq<string>)
  {
    |texts| == |s.fns| && forall i :: 0 <= i < |texts| ==> S.SeqOk(s.fns[i].body) && Spells(texts[i], s.fns[i].body)
  }

  /** A program's forms without the bodies. */
  function Bare(forms: W.Forms): W.Forms
  {
    forms.(fns := seq(|forms.fns|, i requires 0 <= i < |forms.fns| => forms.fns[i].(body := [])))
  }

  /**
   Tokenizing and parsing the bodies, numbering the types, assembling, loading and running, each as it runs, gives what
   the standard says of the program, however its bodies are spelled.
   */
  method ReadAndRun(decls: seq<T.Decl>, uses: seq<T.Use>, bare: W.Forms, texts: seq<string>, fuel: nat, ghost s: Src)
    returns (r: Final)
    requires Accepted(s) && decls == Decls(s) && uses == UseForms(UsesOf(s))
    requires bare == Bare(FormsOf(s)) && AllSpelled(s, texts)
    ensures ReturnsStd(s, fuel, r)
  {
    hide *;
    ghost var all := FormsShape(s, texts, bare);
    var fns: seq<W.FnForm> := [];
    for i := 0 to |texts|
      invariant |fns| == i && fns == all[..i]
    {
      BodyRead(s, texts, bare, all, i);
      var kids := Read(texts[i]);
      fns := fns + [bare.fns[i].(body := kids.value)];
      assert all[..i + 1] == all[..i] + [all[i]];
    }
    assert all[..|texts|] == all;
    r := AssembleAndRun(decls, uses, bare.(fns := fns), fuel, s);
  }

  lemma FormsShape(s: Src, texts: seq<string>, bare: W.Forms) returns (all: seq<W.FnForm>)
    requires AllSpelled(s, texts) && bare == Bare(FormsOf(s))
    ensures all == FormsOf(s).fns && |texts| == |all| == |bare.fns| && bare.(fns := all) == FormsOf(s)
  {
    all := FormsOf(s).fns;
  }

  lemma BodyRead(s: Src, texts: seq<string>, bare: W.Forms, all: seq<W.FnForm>, i: nat)
    requires AllSpelled(s, texts) && bare == Bare(FormsOf(s)) && all == FormsOf(s).fns && i < |texts|
    ensures i < |all| == |bare.fns| && ReadForms(texts[i]).Some?
      && bare.fns[i].(body := ReadForms(texts[i]).value) == all[i]
  {
    hide ReadForms, Spells;
    SpelledIsRead(texts[i], s.fns[i].body);
  }
}

/** The text side of deep_wat.c: characters to tokens to S-expressions. */
module Sexpr {
  import opened Bytes

  datatype Token = LParen | RParen | Word(text: string)

  datatype Sx = Atom(text: string) | List(kids: seq<Sx>)

  /**
   Loops: the scan stands on a lone ';', which no case of the loop moves past. Literal: it met a string
   literal, which this model leaves out.
   */
  datatype Lexed = Tokens(ts: seq<Token>) | Loops | Literal

  predicate IsSpace(c: char)
  {
    c == ' ' || c == '\t' || c == '\n' || c == '\r' || c == 11 as char || c == 12 as char
  }

  /** A character that continues an atom. */
  predicate InWord(c: char)
  {
    !IsSpace(c) && c != '(' && c != ')' && c != ';' && c != '"'
  }

  predicate Opens(src: string, p: nat) { p + 1 < |src| && src[p] == '(' && src[p + 1] == ';' }

  predicate Closes(src: string, p: nat) { p + 1 < |src| && src[p] == ';' && src[p + 1] == ')' }

  function LineEnd(src: string, p: nat): (r: nat)
    ensures p <= r
    decreases |src| - p
  {
    if p >= |src| || src[p] == '\n' then p else LineEnd(src, p + 1)
  }

  /** The position after a block comment with depth levels still open. */
  function CommentEnd(src: string, p: nat, depth: nat): (r: nat)
    ensures p <= r
    decreases |src| - p
  {
    if p >= |src| || depth == 0 then p
    else if Opens(src, p) then CommentEnd(src, p + 2, depth + 1)
    else if Closes(src, p) then CommentEnd(src, p + 2, depth - 1)
    else CommentEnd(src, p + 1, depth)
  }

  function WordEnd(src: string, p: nat): (r: nat)
    ensures p <= r && (p <= |src| ==> r <= |src|)
    ensures p < |src| && InWord(src[p]) ==> p < r
    decreases |src| - p
  {
    if p >= |src| || !InWord(src[p]) then p else WordEnd(src, p + 1)
  }

  function Cons(t: Token, rest: Lexed): Lexed
  {
    if rest.Tokens? then Tokens([t] + rest.ts) else rest
  }

  /** The tokens from position p on. */
  function Lex(src: string, p: nat): Lexed
    decreases |src| - p
  {
    if p >= |src| then Tokens([])
    else if IsSpace(src[p]) then Lex(src, p + 1)
    else if p + 1 < |src| && src[p] == ';' && src[p + 1] == ';' then Lex(src, LineEnd(src, p + 2))
    else if Opens(src, p) then Lex(src, CommentEnd(src, p + 2, 1))
    else if src[p] == '(' then Cons(LParen, Lex(src, p + 1))
    else if src[p] == ')' then Cons(RParen, Lex(src, p + 1))
    else if src[p] == '"' then Literal
    else if src[p] == ';' then Loops
    else Cons(Word(src[p..WordEnd(src, p)]), Lex(src, WordEnd(src, p)))
  }

  method SkipLine(src: string, start: nat) returns (p: nat)
    ensures p == LineEnd(src, start)
  {
    p := start;
    while p < |src| && src[p] != '\n'
      invariant LineEnd(src, start) == LineEnd(src, p)
    {
      p := p + 1;
    }
  }

  method SkipComment(src: string, start: nat) returns (p: nat)
    ensures p == CommentEnd(src, start, 1)
  {
    p := start;
    var depth: nat := 1;
    while p < |src| && depth > 0
      invariant CommentEnd(src, start, 1) == CommentEnd(src, p, depth)
      decreases |src| - p
    {
      if Opens(src, p) { depth := depth + 1; p := p + 2; }
      else if Closes(src, p) { depth := depth - 1; p := p + 2; }
      else { p := p + 1; }
    }
  }

  method SkipWord(src: string, start: nat) returns (p: nat)
    ensures p == WordEnd(src, start)
  {
    p := start;
    while p < |src| && InWord(src[p])
      invariant WordEnd(src, start) == WordEnd(src, p)
    {
      p := p + 1;
    }
  }

  /** tokenize, up to the point where it would loop or read a string literal. */
  method Tokenize(src: string) returns (r: Lexed)
    ensures r == Lex(src, 0)
  {
    hide LineEnd, CommentEnd, WordEnd, Opens, IsSpace, Prepend;
    var p: nat, out := 0, [];
    PrependNone(Lex(src, 0));
    while p < |src|
      invariant Lex(src, 0) == Prepend(out, Lex(src, p))
      decreases |src| - p
    {
      var c := src[p];
      if IsSpace(c) {
        p := p + 1;
      } else if c == ';' && p + 1 < |src| && src[p + 1] == ';' {
        p := SkipLine(src, p + 2);
      } else if Opens(src, p) {
        p := SkipComment(src, p + 2);
      } else if c == '(' || c == ')' {
        PrependMore(out, if c == '(' then LParen else RParen, Lex(src, p + 1));
        out := out + [if c == '(' then LParen else RParen];
        p := p + 1;
      } else if c == '"' {
        PrependMore(out, LParen, Literal);
        return Literal;
      } else {
        var start := p;
        p := SkipWord(src, start);
        WordStops(src, start);
        if p == start {
          PrependMore(out, LParen, Loops);
          return Loops;
        }
        PrependMore(out, Word(src[start..p]), Lex(src, p));
        out := out + [Word(src[start..p])];
      }
    }
    PrependMore(out, LParen, Lex(src, p));
    return Tokens(out);
  }

  ghost function Prepend(ts: seq<Token>, rest: Lexed): Lexed
  {
    if rest.Tokens? then Tokens(ts + rest.ts) else rest
  }

  lemma PrependNone(rest: Lexed)
    ensures Prepend([], rest) == rest
  {
    if rest.Tokens? { assert [] + rest.ts == rest.ts; }
  }

  lemma PrependMore(out: seq<Token>, t: Token, rest: Lexed)
    ensures Prepend(out, Cons(t, rest)) == Prepend(out + [t], rest)
    ensures !rest.Tokens? ==> Prepend(out, rest) == rest
    ensures rest == Tokens([]) ==> Prepend(out, rest) == Tokens(out)
  {
    if rest.Tokens? { assert out + ([t] + rest.ts) == out + [t] + rest.ts; }
  }

  /** A word is empty exactly at a character that ends words. */
  lemma WordStops(src: string, p: nat)
    requires p < |src| && !IsSpace(src[p]) && src[p] != '(' && src[p] != ')' && src[p] != '"'
    ensures WordEnd(src, p) == p <==> src[p] == ';'
    ensures p <= WordEnd(src, p) <= |src|
  {
  }

  // ----- parsing -----

  datatype Parsed = Parsed(x: Option<Sx>, next: nat)

  function ParseOne(ts: seq<Token>, i: nat): (r: Parsed)
    ensures i < |ts| ==> i < r.next <= |ts|
    ensures i >= |ts| ==> r == Parsed(None, i)
    decreases |ts| - i, 0
  {
    if i >= |ts| then Parsed(None, i)
    else
      match ts[i]
      case Word(t) => Parsed(Some(Atom(t)), i + 1)
      case LParen =>
        var k := ParseKids(ts, i + 1);
        Parsed(Some(List(k.xs)), if k.next < |ts| then k.next + 1 else k.next)
      case RParen => Parsed(None, i + 1)
  }

  datatype Kids = Kids(xs: seq<Sx>, next: nat)

  /** The children up to the closing parenthesis, which is left in place. */
  function ParseKids(ts: seq<Token>, i: nat): (r: Kids)
    requires i <= |ts|
    ensures i <= r.next <= |ts|
    decreases |ts| - i, 1
  {
    if i == |ts| || ts[i] == RParen then Kids([], i)
    else
      var kid := ParseOne(ts, i);
      var rest := ParseKids(ts, kid.next);
      Kids((if kid.x.Some? then [kid.x.value] else []) + rest.xs, rest.next)
  }

  method Parse(ts: seq<Token>, i: nat) returns (r: Parsed)
    ensures r == ParseOne(ts, i)
    decreases |ts| - i
  {
    if i >= |ts| { return Parsed(None, i); }
    var t := ts[i];
    var j := i + 1;
    if t.Word? { return Parsed(Some(Atom(t.text)), j); }
    if t.LParen? {
      var kids: seq<Sx> := [];
      while j < |ts| && ts[j] != RParen
        invariant i < j <= |ts|
        invariant ParseKids(ts, i + 1).xs == kids + ParseKids(ts, j).xs
        invariant ParseKids(ts, i + 1).next == ParseKids(ts, j).next
        decreases |ts| - j
      {
        var kid := Parse(ts, j);
        if kid.x.Some? { kids := kids + [kid.x.value]; }
        j := kid.next;
      }
      assert kids == ParseKids(ts, i + 1).xs;
      if j < |ts| { j := j + 1; }
      return Parsed(Some(List(kids)), j);
    }
    return Parsed(None, j);
  }

  // ----- printing -----

  /** The tokens of an S-expression. */
  function Toks(x: Sx): (r: seq<Token>)
    ensures |r| >= 1 && r[0] != RParen
    decreases x
  {
    match x
    case Atom(t) => [Word(t)]
    case List(kids) => [LParen] + ToksSeq(kids) + [RParen]
  }

  function ToksSeq(xs: seq<Sx>): seq<Token>
    decreases xs
  {
    if xs == [] then [] else Toks(xs[0]) + ToksSeq(xs[1..])
  }

  /** ts holds bs from position i on. */
  ghost predicate Has(ts: seq<Token>, i: nat, bs: seq<Token>)
  {
    i + |bs| <= |ts| && ts[i..i + |bs|] == bs
  }

  lemma HasConcat(ts: seq<Token>, i: nat, a: seq<Token>, b: seq<Token>)
    requires Has(ts, i, a + b)
    ensures Has(ts, i, a) && Has(ts, i + |a|, b)
  {
    assert ts[i..i + |a|] == ts[i..i + |a + b|][..|a|];
    assert ts[i + |a|..i + |a| + |b|] == ts[i..i + |a + b|][|a|..];
  }

  lemma HasFirst(ts: seq<Token>, i: nat, bs: seq<Token>)
    requires Has(ts, i, bs) && |bs| > 0
    ensures i + |bs| <= |ts| && ts[i] == bs[0]
  {
    assert ts[i] == ts[i..i + |bs|][0];
  }

  /** Parsing an expression's tokens gives it back and stops right after them. */
  lemma {:induction false} ParseToks(ts: seq<Token>, i: nat, x: Sx)
    requires Has(ts, i, Toks(x))
    ensures ParseOne(ts, i) == Parsed(Some(x), i + |Toks(x)|)
    decreases x
  {
    hide Has;
    HasFirst(ts, i, Toks(x));
    match x
    case Atom(t) =>
    case List(kids) =>
      HasConcat(ts, i, [LParen] + ToksSeq(kids), [RParen]);
      HasConcat(ts, i, [LParen], ToksSeq(kids));
      HasFirst(ts, i + 1 + |ToksSeq(kids)|, [RParen]);
      ParseToksSeq(ts, i + 1, kids);
  }

  lemma {:induction false} ParseToksSeq(ts: seq<Token>, i: nat, xs: seq<Sx>)
    requires Has(ts, i, ToksSeq(xs)) && (i + |ToksSeq(xs)| < |ts| ==> ts[i + |ToksSeq(xs)|] == RParen)
    ensures ParseKids(ts, i).xs == xs && ParseKids(ts, i).next == i + |ToksSeq(xs)|
    decreases xs
  {
    hide Has, Toks;
    if xs != [] {
      HasConcat(ts, i, Toks(xs[0]), ToksSeq(xs[1..]));
      HasFirst(ts, i, Toks(xs[0]));
      ParseToks(ts, i, xs[0]);
      ParseToksSeq(ts, i + |Toks(xs[0])|, xs[1..]);
    }
  }

  // ----- separators -----

  /** The blanks of the text, spelled out: space, tab, newline, carriage return, vertical tab and form feed. */
  predicate Blank(c: char) { c in [' ', '\t', '\n', '\r', 11 as char, 12 as char] }

  /** A character of an atom, spelled out: no blank, parenthesis, semicolon or quotation mark. */
  predicate Letter(c: char) { !Blank(c) && c !in ['(', ')', ';', '"'] }

  /** The scanner's tests are these. */
  lemma ScansIff(c: char)
    ensures IsSpace(c) <==> Blank(c)
    ensures InWord(c) <==> Letter(c)
  {
  }

  /** A piece of a block comment: one character, or a block comment inside it. */
  datatype Note = Ch(c: char) | Nested(notes: seq<Note>)

  datatype Gap = Space(c: char) | Line(text: string) | Comment(notes: seq<Note>)

  function NoteText(n: Note): string
    decreases n
  {
    match n
    case Ch(c) => [c]
    case Nested(notes) => "(;" + NotesText(notes) + ";)"
  }

  function NotesText(ns: seq<Note>): string
    decreases ns
  {
    if ns == [] then [] else NoteText(ns[0]) + NotesText(ns[1..])
  }

  /** No single character begins a comment bracket by running into what follows; after follows ns. */
  predicate NotesOk(ns: seq<Note>)
    decreases ns
  {
    ns == [] ||
    (NotesOk(ns[1..]) &&
     match ns[0]
     case Nested(notes) => NotesOk(notes)
     case Ch(c) =>
       var text := [c] + NotesText(ns[1..]) + ";)";
       !Opens(text, 0) && !Closes(text, 0))
  }

  function GapText(g: Gap): (r: string)
    ensures |r| >= 1
  {
    match g
    case Space(c) => [c]
    case Line(t) => ";;" + t + "\n"
    case Comment(notes) => "(;" + NotesText(notes) + ";)"
  }

  predicate GapOk(g: Gap)
  {
    match g
    case Space(c) => Blank(c)
    case Line(t) => '\n' !in t
    case Comment(notes) => NotesOk(notes)
  }

  function GapsText(gs: seq<Gap>): string
  {
    if gs == [] then [] else GapText(gs[0]) + GapsText(gs[1..])
  }

  predicate GapsOk(gs: seq<Gap>)
  {
    gs == [] || (GapOk(gs[0]) && GapsOk(gs[1..]))
  }

  function TokenText(t: Token): string
  {
    match t case LParen => "(" case RParen => ")" case Word(w) => w
  }

  predicate AllLetters(w: string) { forall i :: 0 <= i < |w| ==> Letter(w[i]) }

  /** An atom the scanner reads as one word. */
  predicate TokenOk(t: Token)
  {
    t.Word? ==> |t.text| > 0 && AllLetters(t.text)
  }

  /** Gaps before each token: gaps[i] stands before ts[i], and tail after the last one. */
  function Render(ts: seq<Token>, gaps: seq<seq<Gap>>, tail: seq<Gap>): string
    requires |gaps| == |ts|
  {
    if ts == [] then GapsText(tail)
    else GapsText(gaps[0]) + (TokenText(ts[0]) + Render(ts[1..], gaps[1..], tail))
  }

  /** May the gap stand between token t and what follows; word: the next token is an atom. */
  predicate Separates(t: Token, gap: seq<Gap>, word: bool)
  {
    && (t.Word? && word ==> gap != [])
    // an opening parenthesis and a line comment's first ';' would open a block comment
    && (t.LParen? && gap != [] ==> !gap[0].Line?)
  }

  /** Plain atoms and well-formed gaps that keep the tokens apart. */
  predicate RenderOk(ts: seq<Token>, gaps: seq<seq<Gap>>, tail: seq<Gap>)
    requires |gaps| == |ts|
  {
    if ts == [] then GapsOk(tail)
    else
      && TokenOk(ts[0]) && GapsOk(gaps[0]) && RenderOk(ts[1..], gaps[1..], tail)
      && if |ts| == 1 then Separates(ts[0], tail, false) else Separates(ts[0], gaps[1], ts[1].Word?)
  }

  // ----- lexing what was rendered -----

  /** text is what is left of src at p. */
  ghost predicate Left(src: string, p: nat, text: string)
  {
    p <= |src| && src[p..] == text
  }

  lemma Suffix(src: string, p: nat, a: string, b: string)
    requires Left(src, p, a + b)
    ensures p + |a| <= |src| && Left(src, p + |a|, b)
    ensures forall k :: 0 <= k < |a| ==> src[p + k] == a[k]
  {
    assert src[p + |a|..] == src[p..][|a|..];
    forall k | 0 <= k < |a| ensures src[p + k] == a[k] { assert src[p + k] == src[p..][k]; }
  }

  /** The one or two characters at p. */
  lemma First(src: string, p: nat, text: string)
    requires Left(src, p, text)
    ensures |text| == |src| - p
    ensures |text| > 0 ==> src[p] == text[0]
    ensures |text| > 1 ==> src[p + 1] == text[1]
  {
    if |text| > 0 { assert src[p] == src[p..][0]; }
    if |text| > 1 { assert src[p + 1] == src[p..][1]; }
  }

  lemma {:induction false} SkipNotes(src: string, p: nat, ns: seq<Note>, rest: string, depth: nat)
    requires Left(src, p, NotesText(ns) + (";)" + rest)) && NotesOk(ns) && depth >= 1
    ensures CommentEnd(src, p, depth) == CommentEnd(src, p + |NotesText(ns)| + 2, depth - 1)
    decreases ns, 0
  {
    hide Left;
    if ns == [] {
      assert NotesText(ns) + (";)" + rest) == ";)" + rest;
      First(src, p, ";)" + rest);
    } else {
      var more := NotesText(ns[1..]) + (";)" + rest);
      assert NotesText(ns) + (";)" + rest) == NoteText(ns[0]) + more;
      Suffix(src, p, NoteText(ns[0]), more);
      match ns[0]
      case Ch(c) =>
        SkipChar(src, p, c, ns[1..], rest, depth);
        SkipNotes(src, p + 1, ns[1..], rest, depth);
      case Nested(notes) =>
        SkipNested(src, p, notes, more, depth);
        SkipNotes(src, p + |NoteText(ns[0])|, ns[1..], rest, depth);
    }
  }

  lemma SkipChar(src: string, p: nat, c: char, ns: seq<Note>, rest: string, depth: nat)
    requires Left(src, p, [c] + (NotesText(ns) + (";)" + rest))) && depth >= 1
    requires var text := [c] + NotesText(ns) + ";)"; !Opens(text, 0) && !Closes(text, 0)
    ensures CommentEnd(src, p, depth) == CommentEnd(src, p + 1, depth)
  {
    hide Left;
    var text := [c] + NotesText(ns) + ";)";
    assert [c] + (NotesText(ns) + (";)" + rest)) == text + rest;
    First(src, p, text + rest);
  }

  lemma {:induction false} SkipNested(src: string, p: nat, notes: seq<Note>, more: string, depth: nat)
    requires Left(src, p, NoteText(Nested(notes)) + more) && NotesOk(notes) && depth >= 1
    ensures CommentEnd(src, p, depth) == CommentEnd(src, p + |NoteText(Nested(notes))|, depth)
    decreases notes, 1
  {
    hide Left;
    var inside := NotesText(notes) + (";)" + more);
    assert NoteText(Nested(notes)) + more == "(;" + inside;
    Suffix(src, p, "(;", inside);
    First(src, p, "(;" + inside);
    SkipNotes(src, p + 2, notes, more, depth + 1);
  }

  lemma {:induction false} LineEndIs(src: string, p: nat, t: string, rest: string)
    requires Left(src, p, t + ("\n" + rest)) && '\n' !in t
    ensures LineEnd(src, p) == p + |t|
    decreases t
  {
    hide Left;
    First(src, p, t + ("\n" + rest));
    if t != [] {
      assert t + ("\n" + rest) == [t[0]] + (t[1..] + ("\n" + rest));
      Suffix(src, p, [t[0]], t[1..] + ("\n" + rest));
      LineEndIs(src, p + 1, t[1..], rest);
    }
  }

  lemma LexLine(src: string, p: nat, t: string, rest: string)
    requires Left(src, p, ";;" + t + "\n" + rest) && '\n' !in t
    ensures Lex(src, p) == Lex(src, p + |t| + 3)
  {
    hide Left;
    assert ";;" + t + "\n" + rest == ";;" + (t + ("\n" + rest));
    First(src, p, ";;" + (t + ("\n" + rest)));
    Suffix(src, p, ";;", t + ("\n" + rest));
    LineEndIs(src, p + 2, t, rest);
    Suffix(src, p + 2, t, "\n" + rest);
    First(src, p + 2 + |t|, "\n" + rest);
  }

  lemma LexComment(src: string, p: nat, notes: seq<Note>, rest: string)
    requires Left(src, p, "(;" + NotesText(notes) + ";)" + rest) && NotesOk(notes)
    ensures Lex(src, p) == Lex(src, p + |NotesText(notes)| + 4)
  {
    hide Left;
    var inside := NotesText(notes) + (";)" + rest);
    assert "(;" + NotesText(notes) + ";)" + rest == "(;" + inside;
    Suffix(src, p, "(;", inside);
    First(src, p, "(;" + inside);
    SkipNotes(src, p + 2, notes, rest, 1);
  }

  lemma LexGap(src: string, p: nat, g: Gap, rest: string)
    requires Left(src, p, GapText(g) + rest) && GapOk(g)
    ensures Left(src, p + |GapText(g)|, rest)
    ensures Lex(src, p) == Lex(src, p + |GapText(g)|)
  {
    hide Left;
    Suffix(src, p, GapText(g), rest);
    match g
    case Space(c) => First(src, p, GapText(g) + rest); ScansIff(c);
    case Line(t) => LexLine(src, p, t, rest);
    case Comment(notes) => LexComment(src, p, notes, rest);
  }

  lemma {:induction false} LexGaps(src: string, p: nat, gs: seq<Gap>, rest: string)
    requires Left(src, p, GapsText(gs) + rest) && GapsOk(gs)
    ensures Left(src, p + |GapsText(gs)|, rest)
    ensures Lex(src, p) == Lex(src, p + |GapsText(gs)|)
    decreases gs
  {
    hide Lex, Left, GapText;
    if gs != [] {
      assert GapsText(gs) + rest == GapText(gs[0]) + (GapsText(gs[1..]) + rest);
      LexGap(src, p, gs[0], GapsText(gs[1..]) + rest);
      LexGaps(src, p + |GapText(gs[0])|, gs[1..], rest);
    } else {
      assert GapsText(gs) + rest == rest;
    }
  }

  lemma {:induction false} WordEndIs(src: string, p: nat, w: string, rest: string)
    requires Left(src, p, w + rest) && AllLetters(w)
    requires rest == [] || !InWord(rest[0])
    ensures WordEnd(src, p) == p + |w|
    decreases w
  {
    hide Left;
    First(src, p, w + rest);
    if w != [] {
      ScansIff(w[0]);
      assert w + rest == [w[0]] + (w[1..] + rest);
      Suffix(src, p, [w[0]], w[1..] + rest);
      WordEndIs(src, p + 1, w[1..], rest);
    }
  }

  /** Scanning rendered tokens gives exactly those tokens, whatever stands in the gaps. */
  lemma {:induction false} LexRender(src: string, p: nat, ts: seq<Token>, gaps: seq<seq<Gap>>, tail: seq<Gap>)
    requires |gaps| == |ts| && RenderOk(ts, gaps, tail)
    requires Left(src, p, Render(ts, gaps, tail))
    ensures Lex(src, p) == Tokens(ts)
    decreases ts
  {
    hide Left, Lex, GapsText, TokenText, TokenOk, Separates;
    if ts == [] {
      assert GapsText(tail) == GapsText(tail) + [];
      LexGaps(src, p, tail, []);
      LexNothing(src, p + |GapsText(tail)|);
    } else {
      var more := Render(ts[1..], gaps[1..], tail);
      var q := p + |GapsText(gaps[0])|;
      LexGaps(src, p, gaps[0], TokenText(ts[0]) + more);
      LexToken(src, q, ts, gaps, tail);
      LexRender(src, q + |TokenText(ts[0])|, ts[1..], gaps[1..], tail);
    }
  }

  lemma LexNothing(src: string, p: nat)
    requires Left(src, p, [])
    ensures Lex(src, p) == Tokens([])
  {
  }

  lemma {:induction false} LexToken(src: string, q: nat, ts: seq<Token>, gaps: seq<seq<Gap>>, tail: seq<Gap>)
    requires |gaps| == |ts| > 0 && RenderOk(ts, gaps, tail)
    requires Left(src, q, TokenText(ts[0]) + Render(ts[1..], gaps[1..], tail))
    ensures var q' := q + |TokenText(ts[0])|;
            Left(src, q', Render(ts[1..], gaps[1..], tail)) && Lex(src, q) == Cons(ts[0], Lex(src, q'))
  {
    hide RenderOk, Render, Left, Lex;
    var more := Render(ts[1..], gaps[1..], tail);
    Suffix(src, q, TokenText(ts[0]), more);
    FollowsOk(ts, gaps, tail);
    match ts[0]
    case Word(w) => LexWord(src, q, w, more);
    case _ => LexParen(src, q, ts[0], more);
  }

  lemma {:induction false} LexParen(src: string, q: nat, t: Token, more: string)
    requires !t.Word? && Left(src, q, TokenText(t) + more) && (t.LParen? && more != [] ==> more[0] != ';')
    ensures Lex(src, q) == Cons(t, Lex(src, q + 1))
  {
    hide Left, LineEnd, CommentEnd, WordEnd;
    First(src, q, TokenText(t) + more);
  }

  lemma {:induction false} LexWord(src: string, q: nat, w: string, more: string)
    requires TokenOk(Word(w)) && Left(src, q, w + more) && (more != [] ==> !InWord(more[0]))
    ensures Lex(src, q) == Cons(Word(w), Lex(src, q + |w|))
  {
    hide Left, LineEnd, CommentEnd, WordEnd;
    First(src, q, w + more);
    ScansIff(w[0]);
    WordEndIs(src, q, w, more);
    WordIs(src, q, w, more);
  }

  lemma WordIs(src: string, q: nat, w: string, more: string)
    requires Left(src, q, w + more)
    ensures q + |w| <= |src| && src[q..q + |w|] == w
  {
    assert src[q..q + |w|] == src[q..][..|w|];
  }

  lemma FollowsOk(ts: seq<Token>, gaps: seq<seq<Gap>>, tail: seq<Gap>)
    requires |gaps| == |ts| > 0 && RenderOk(ts, gaps, tail)
    ensures TokenOk(ts[0])
    ensures var r := Render(ts[1..], gaps[1..], tail);
            r == [] || ((ts[0].Word? ==> !InWord(r[0])) && (ts[0].LParen? ==> r[0] != ';'))
  {
    var gap := if |ts| == 1 then tail else gaps[1];
    if gap != [] {
      if gap[0].Space? { ScansIff(gap[0].c); }
      assert GapsText(gap)[0] == GapText(gap[0])[0];
    } else if |ts| > 1 {
      assert Render(ts[1..], gaps[1..], tail)[0] == TokenText(ts[1])[0];
    }
  }

  /**
   Printing an S-expression of plain atoms with any gaps that keep its tokens apart, then tokenizing
   and parsing, gives the expression back with every token consumed.
   */
  lemma PrintParse(x: Sx, gaps: seq<seq<Gap>>, tail: seq<Gap>)
    requires |gaps| == |Toks(x)| && RenderOk(Toks(x), gaps, tail)
    ensures Lex(Render(Toks(x), gaps, tail), 0) == Tokens(Toks(x))
    ensures ParseOne(Toks(x), 0) == Parsed(Some(x), |Toks(x)|)
  {
    hide RenderOk, Render;
    var src := Render(Toks(x), gaps, tail);
    assert Left(src, 0, src);
    LexRender(src, 0, Toks(x), gaps, tail);
    assert Toks(x)[0..|Toks(x)|] == Toks(x);
    ParseToks(Toks(x), 0, x);
  }

  // ----- a last line without its newline -----

  lemma {:induction false} LineEndNewline(src: string, p: nat)
    requires p <= |src|
    ensures LineEnd(src + "\n", p) == LineEnd(src, p) <= |src|
    decreases |src| - p
  {
    if p < |src| && src[p] != '\n' { LineEndNewline(src, p + 1); }
  }

  lemma {:induction false} WordEndNewline(src: string, p: nat)
    requires p <= |src|
    ensures WordEnd(src + "\n", p) == WordEnd(src, p)
    decreases |src| - p
  {
    if p < |src| && InWord(src[p]) { WordEndNewline(src, p + 1); }
  }

  lemma {:induction false} CommentEndNewline(src: string, p: nat, depth: nat)
    requires p <= |src|
    ensures CommentEnd(src + "\n", p, depth) == CommentEnd(src, p, depth)
      || (CommentEnd(src + "\n", p, depth) == |src| + 1 && CommentEnd(src, p, depth) == |src|)
    ensures CommentEnd(src, p, depth) <= |src|
    decreases |src| - p
  {
    if p < |src| && depth > 0 {
      if Opens(src, p) { CommentEndNewline(src, p + 2, depth + 1); }
      else if Closes(src, p) { CommentEndNewline(src, p + 2, depth - 1); }
      else { CommentEndNewline(src, p + 1, depth); }
    }
  }

  /** A newline at the end of the text changes nothing. */
  lemma {:induction false} LexNewline(src: string, p: nat)
    requires p <= |src|
    ensures Lex(src + "\n", p) == Lex(src, p)
    decreases |src| - p
  {
    hide LineEnd, CommentEnd, WordEnd;
    var s := src + "\n";
    if p < |src| {
      var c := src[p];
      if IsSpace(c) || (c == '(' && !Opens(src, p)) || c == ')' {
        LexNewline(src, p + 1);
      } else if p + 1 < |src| && c == ';' && src[p + 1] == ';' {
        LineEndNewline(src, p + 2);
        LexNewline(src, LineEnd(src, p + 2));
      } else if Opens(src, p) {
        CommentEndNewline(src, p + 2, 1);
        LexNewline(src, CommentEnd(src, p + 2, 1));
      } else if c != '"' && c != ';' {
        WordEndNewline(src, p);
        WordStops(src, p);
        LexNewline(src, WordEnd(src, p));
        assert s[p..WordEnd(src, p)] == src[p..WordEnd(src, p)];
      }
    }
  }

  lemma {:induction false} GapsSnoc(gs: seq<Gap>, g: Gap)
    ensures GapsText(gs + [g]) == GapsText(gs) + GapText(g)
    ensures GapsOk(gs + [g]) <==> GapsOk(gs) && GapOk(g)
    decreases gs
  {
    hide GapText, GapOk;
    if gs == [] {
      assert [] + [g] == [g] && [g][1..] == [];
    } else {
      assert (gs + [g])[1..] == gs[1..] + [g];
      GapsSnoc(gs[1..], g);
    }
  }

  lemma {:induction false} RenderSnoc(ts: seq<Token>, gaps: seq<seq<Gap>>, tail: seq<Gap>, g: Gap)
    requires |gaps| == |ts|
    ensures Render(ts, gaps, tail + [g]) == Render(ts, gaps, tail) + GapText(g)
    decreases ts
  {
    hide GapText, GapsText;
    if ts == [] { GapsSnoc(tail, g); } else { RenderSnoc(ts[1..], gaps[1..], tail, g); }
  }

  /** The same for a text that ends in a line comment without a newline. */
  lemma PrintParseUnended(x: Sx, gaps: seq<seq<Gap>>, tail: seq<Gap>, last: string)
    requires |gaps| == |Toks(x)| && RenderOk(Toks(x), gaps, tail + [Line(last)])
    ensures Lex(Render(Toks(x), gaps, tail) + (";;" + last), 0) == Tokens(Toks(x))
  {
    hide RenderOk, Render, Lex;
    var src := Render(Toks(x), gaps, tail) + (";;" + last);
    RenderSnoc(Toks(x), gaps, tail, Line(last));
    assert src + "\n" == Render(Toks(x), gaps, tail) + GapText(Line(last));
    LexNewline(src, 0);
    PrintParse(x, gaps, tail + [Line(last)]);
  }

  // ----- text that is not well-formed -----

  /** The scan never passes a semicolon that begins no comment, and stops at a quotation mark. */
  lemma LexStops(src: string, p: nat)
    requires p < |src|
    ensures src[p] == ';' && !(p + 1 < |src| && src[p + 1] == ';') ==> Lex(src, p) == Loops
    ensures src[p] == '"' ==> Lex(src, p) == Literal
  {
  }

  /** A comment that is never closed takes all that is left. */
  lemma {:induction false} UnclosedComment(src: string, p: nat, depth: nat)
    requires p <= |src| && depth > 0 && forall i :: p <= i < |src| - 1 ==> !(src[i] == ';' && src[i + 1] == ')')
    ensures CommentEnd(src, p, depth) >= |src|
    decreases |src| - p
  {
    if p + 1 < |src| && src[p] == '(' && src[p + 1] == ';' {
      UnclosedComment(src, p + 2, depth + 1);
    } else if p < |src| {
      UnclosedComment(src, p + 1, depth);
    }
  }

  /** A list that is never closed ends with the tokens. */
  lemma {:induction false} ParseUnclosed(kids: seq<Sx>)
    ensures ParseOne([LParen] + ToksSeq(kids), 0) == Parsed(Some(List(kids)), 1 + |ToksSeq(kids)|)
  {
    var ts := [LParen] + ToksSeq(kids);
    assert ts[1..1 + |ToksSeq(kids)|] == ToksSeq(kids);
    ParseToksSeq(ts, 1, kids);
  }

  /** A closing parenthesis where an expression should begin is no expression. */
  lemma ParseClosed(ts: seq<Token>, i: nat)
    ensures i < |ts| && ts[i] == RParen ==> ParseOne(ts, i) == Parsed(None, i + 1)
  {
  }
}

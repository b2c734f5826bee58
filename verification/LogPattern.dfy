/** `LogFormatter::init`: the pattern parser, and the printer it inverts. */
module LogPattern {
  import opened Search

  /** A parsed piece: literal text, or a directive with its name and format. */
  datatype Piece = Lit(text: string) | Dir(name: string, fmt: string)

  datatype Pieces = Pieces(vec: seq<Piece>, broken: bool)

  /** A formatter item: text, or one of the known directives. */
  datatype Item = Text(s: string) | Field(letter: char, fmt: string)

  datatype Formatter = Formatter(items: seq<Item>, error: bool)

  predicate IsAlpha(c: char) { 'a' <= c <= 'z' || 'A' <= c <= 'Z' }

  /** The characters that continue a directive name. */
  predicate InName(c: char) { IsAlpha(c) || c == '}' }

  /** The characters that do not end a bare directive. */
  predicate Sticky(c: char) { InName(c) || c == '{' }

  predicate KnownLetter(c: char) { c in "mprctndflTFN" }

  // ---------------------------------------------------------------- what the parser computes

  /** The length of the name at the head of p. */
  function NameLength(p: string): (n: nat)
    ensures n <= |p| && (n < |p| ==> !InName(p[n])) && forall k :: 0 <= k < n ==> InName(p[k])
  {
    if p == "" || !InName(p[0]) then 0 else 1 + NameLength(p[1..])
  }

  /** What follows a percent sign: a directive and how much of p it takes, or an unclosed format. */
  datatype Head = Head(name: string, fmt: string, used: nat) | Unclosed

  function ReadHead(p: string): (h: Head)
    ensures h.Head? ==> h.used <= |p|
  {
    var n := NameLength(p);
    if n == |p| || p[n] != '{' then Head(p[..n], "", n)
    else
      var m := IndexOf(p[n + 1..], '}');
      if n + 1 + m == |p| then Unclosed else Head(p[..n], p[n + 1..n + 1 + m], n + 1 + m + 1)
  }

  function Flush(text: string): seq<Piece> {
    if text == "" then [] else [Lit(text)]
  }

  const PATTERN_ERROR := "<<pattern_error>>"

  /** The pieces of the pattern p, `text` being the literal text read so far. */
  function Parse(p: string, text: string): Pieces
    decreases |p|
  {
    if p == "" then Pieces(Flush(text), false)
    else if p[0] != '%' then Parse(p[1..], text + [p[0]])
    else if |p| > 1 && p[1] == '%' then Parse(p[2..], text + "%")
    else
      match ReadHead(p[1..])
      case Unclosed =>
        // the text stays pending behind the error piece, and scanning resumes after the percent
        var rest := Parse(p[1..], text);
        Pieces([Lit(PATTERN_ERROR)] + rest.vec, true)
      case Head(name, fmt, used) =>
        var rest := Parse(p[1 + used..], "");
        Pieces(Flush(text) + [Dir(name, fmt)] + rest.vec, rest.broken)
  }

  predicate KnownName(name: string) { |name| == 1 && KnownLetter(name[0]) }

  function Resolve(piece: Piece): Item {
    match piece
    case Lit(s) => Text(s)
    case Dir(name, fmt) => if KnownName(name) then Field(name[0], fmt) else Text("<<error_format %" + name + ">>")
  }

  function ResolveAll(vec: seq<Piece>): (r: Formatter)
    ensures |r.items| == |vec|
  {
    if vec == [] then Formatter([], false)
    else
      var rest := ResolveAll(vec[1..]);
      Formatter([Resolve(vec[0])] + rest.items, rest.error || (vec[0].Dir? && !KnownName(vec[0].name)))
  }

  /** The items and the error flag of a pattern. */
  function Formatted(p: string): Formatter {
    var pieces := Parse(p, "");
    var r := ResolveAll(pieces.vec);
    r.(error := r.error || pieces.broken)
  }

  // ---------------------------------------------------------------- the parser

  lemma {:induction false} ResolveSnoc(vec: seq<Piece>, piece: Piece)
    ensures var r, q := ResolveAll(vec), ResolveAll(vec + [piece]);
            q.items == r.items + [Resolve(piece)] && q.error == (r.error || (piece.Dir? && !KnownName(piece.name)))
  {
    if vec == [] {
      assert vec + [piece] == [piece] && [piece][1..] == [];
    } else {
      assert (vec + [piece])[1..] == vec[1..] + [piece];
      ResolveSnoc(vec[1..], piece);
    }
  }

  /** The inner loop: from the character after the percent at i. */
  method ScanDirective(p: string, i: nat) returns (n: nat, status: int, name: string, fmt: string)
    requires i < |p|
    ensures n > i
    ensures status == 0 || status == 1
    ensures var h := ReadHead(p[i + 1..]);
            && (status == 1 <==> h.Unclosed?) && (status == 1 ==> fmt == "")
            && (h.Head? ==> n == i + 1 + h.used && name == h.name && fmt == h.fmt)
  {
    hide NameLength, IndexOf;
    ghost var q := p[i + 1..];
    ghost var len := NameLength(q);
    n, status, name, fmt := i + 1, 0, "", "";
    var begin := 0;
    while n < |p|
      invariant i + 1 <= n <= |p| && (status == 0 || status == 1) && fmt == ""
      invariant status == 0 ==>
                n <= i + 1 + len && (n < |p| || i + 1 == |p| ==> name == "") && (n == |p| > i + 1 ==> name == q[..len])
      invariant status == 1 ==> len < |q| && q[len] == '{' && begin == i + 1 + len && n >= begin + 1
      invariant status == 1 ==> (n < |p| ==> name == q[..len]) && n <= begin + 1 + IndexOf(q[len + 1..], '}')
      decreases |p| - n
    {
      if status == 0 && !IsAlpha(p[n]) && p[n] != '{' && p[n] != '}' {
        name := p[i + 1..n];
        break;
      }
      if status == 0 {
        if p[n] == '{' {
          name := p[i + 1..n];
          status := 1;
          begin := n;
          n := n + 1;
          continue;
        }
      } else if status == 1 {
        if p[n] == '}' {
          fmt := p[begin + 1..n];
          status := 0;
          n := n + 1;
          break;
        }
      }
      n := n + 1;
      if n == |p| {
        if name == "" { name := p[i + 1..]; }
      }
    }
  }

  /** Pieces already read, followed by those of the rest. */
  function Onto(vec: seq<Piece>, error: bool, rest: Pieces): Pieces {
    Pieces(vec + rest.vec, error || rest.broken)
  }

  lemma DirStep(vec: seq<Piece>, error: bool, p: string, text: string)
    requires p != "" && p[0] == '%' && (|p| > 1 ==> p[1] != '%') && ReadHead(p[1..]).Head?
    ensures var h := ReadHead(p[1..]);
            Onto(vec, error, Parse(p, text))
                == Onto(vec + Flush(text) + [Dir(h.name, h.fmt)], error, Parse(p[1 + h.used..], ""))
  {
    hide ReadHead, Flush;
    var h := ReadHead(p[1..]);
    var rest := Parse(p[1 + h.used..], "").vec;
    assert vec + (Flush(text) + [Dir(h.name, h.fmt)] + rest) == vec + Flush(text) + [Dir(h.name, h.fmt)] + rest;
  }

  lemma BrokenStep(vec: seq<Piece>, error: bool, p: string, text: string)
    requires p != "" && p[0] == '%' && (|p| > 1 ==> p[1] != '%') && ReadHead(p[1..]).Unclosed?
    ensures Onto(vec, error, Parse(p, text)) == Onto(vec + [Lit(PATTERN_ERROR)], true, Parse(p[1..], text))
  {
    hide ReadHead, Flush;
    var rest := Parse(p[1..], text).vec;
    assert vec + ([Lit(PATTERN_ERROR)] + rest) == vec + [Lit(PATTERN_ERROR)] + rest;
  }

  /** `init`: the outer loop over the pattern, then the resolution of the pieces. */
  method Init(pattern: string) returns (r: Formatter)
    ensures r == Formatted(pattern)
  {
    var vec, error := InitPieces(pattern);
    r := InitItems(vec, error);
  }

  /** The outer loop; every round moves on. */
  method InitPieces(pattern: string) returns (vec: seq<Piece>, error: bool)
    ensures Pieces(vec, error) == Parse(pattern, "")
  {
    hide Onto, ReadHead;
    var nstr := "";
    vec, error := [], false;
    var i := 0;
    assert pattern[0..] == pattern;
    OntoNothing(Parse(pattern, ""));
    while i < |pattern|
      invariant 0 <= i <= |pattern|
      invariant Onto(vec, error, Parse(pattern[i..], nstr)) == Parse(pattern, "")
    {
      ghost var p := pattern[i..];
      if pattern[i] != '%' {
        assert p[1..] == pattern[i + 1..];
        nstr := nstr + [pattern[i]];
        i := i + 1;
        continue;
      }
      if i + 1 < |pattern| {
        if pattern[i + 1] == '%' {
          assert p[2..] == pattern[i + 2..];
          nstr := nstr + "%";
          i := i + 2;
          continue;
        }
      }
      var n, status, name, fmt := ScanDirective(pattern, i);
      assert p[1..] == pattern[i + 1..];
      if status == 0 {
        DirStep(vec, error, p, nstr);
        assert p[n - i..] == pattern[n..];
        assert nstr == "" ==> vec + Flush(nstr) == vec;
        if nstr != "" {
          vec := vec + [Lit(nstr)];
          nstr := "";
        }
        vec := vec + [Dir(name, fmt)];
        i := n;
      } else {
        BrokenStep(vec, error, p, nstr);
        error := true;
        vec := vec + [Lit(PATTERN_ERROR)];
        i := i + 1;
      }
    }
    OntoLast(vec, error, nstr);
    if nstr != "" { vec := vec + [Lit(nstr)]; }
  }

  lemma OntoNothing(rest: Pieces)
    ensures Onto([], false, rest) == rest
  {
  }

  lemma OntoLast(vec: seq<Piece>, error: bool, text: string)
    ensures Onto(vec, error, Parse("", text)) == Pieces(if text == "" then vec else vec + [Lit(text)], error)
  {
  }

  /** The loop that turns pieces into items. */
  method InitItems(vec: seq<Piece>, broken: bool) returns (r: Formatter)
    ensures r == ResolveAll(vec).(error := ResolveAll(vec).error || broken)
  {
    var items, error := [], broken;
    var i := 0;
    while i < |vec|
      invariant 0 <= i <= |vec|
      invariant items == ResolveAll(vec[..i]).items && error == (broken || ResolveAll(vec[..i]).error)
    {
      ResolveSnoc(vec[..i], vec[i]);
      assert vec[..i + 1] == vec[..i] + [vec[i]];
      if vec[i].Lit? {
        items := items + [Text(vec[i].text)];
      } else if !KnownName(vec[i].name) {
        items := items + [Text("<<error_format %" + vec[i].name + ">>")];
        error := true;
      } else {
        items := items + [Field(vec[i].name[0], vec[i].fmt)];
      }
      i := i + 1;
    }
    assert vec[..i] == vec;
    r := Formatter(items, error);
  }

  // ---------------------------------------------------------------- the printer

  function Escape(s: string): string {
    if s == "" then "" else (if s[0] == '%' then "%%" else [s[0]]) + Escape(s[1..])
  }

  /** A directive, bare when nothing that follows could be taken for a part of it. */
  function PrintField(letter: char, fmt: string, rest: string): string {
    if fmt == "" && (rest == "" || !Sticky(rest[0])) then ['%', letter] + rest
    else ['%', letter, '{'] + fmt + "}" + rest
  }

  function Print(items: seq<Item>): string {
    if items == [] then ""
    else
      match items[0]
      case Text(s) => Escape(s) + Print(items[1..])
      case Field(c, fmt) => PrintField(c, fmt, Print(items[1..]))
  }

  predicate WellFormed(x: Item) {
    match x
    case Text(s) => s != ""
    case Field(c, fmt) => KnownLetter(c) && '}' !in fmt
  }

  /** Known letters, formats without a closing brace, literals not empty and never side by side. */
  predicate Canonical(items: seq<Item>) {
    && (forall i :: 0 <= i < |items| ==> WellFormed(items[i]))
    && (forall i :: 0 <= i < |items| - 1 ==> !(items[i].Text? && items[i + 1].Text?))
  }

  lemma ParseChar(c: char, rest: string, text: string)
    ensures Parse((if c == '%' then "%%" else [c]) + rest, text) == Parse(rest, text + [c])
  {
    hide ReadHead, Flush;
    var p := (if c == '%' then "%%" else [c]) + rest;
    assert p[if c == '%' then 2 else 1..] == rest;
    assert c == '%' ==> text + "%" == text + [c];
  }

  lemma {:induction false} ParseText(s: string, rest: string, text: string)
    ensures Parse(Escape(s) + rest, text) == Parse(rest, text + s)
  {
    hide Parse;
    if s == "" {
      assert Escape(s) + rest == rest && text + s == text;
    } else {
      var c := if s[0] == '%' then "%%" else [s[0]];
      assert Escape(s) + rest == c + (Escape(s[1..]) + rest);
      ParseChar(s[0], Escape(s[1..]) + rest, text);
      ParseText(s[1..], rest, text + [s[0]]);
      assert text + s == text + [s[0]] + s[1..];
    }
  }

  lemma {:induction false} CloseAfter(fmt: string, rest: string)
    requires '}' !in fmt
    ensures IndexOf(fmt + "}" + rest, '}') == |fmt|
  {
    var p := fmt + "}" + rest;
    assert p[|fmt|] == '}';
    assert forall k :: 0 <= k < |fmt| ==> p[k] == fmt[k] && p[k] in fmt;
  }

  lemma LetterAlone(c: char)
    requires KnownLetter(c)
    ensures IsAlpha(c) && c != '%' && KnownName([c])
  {
  }

  lemma HeadBare(c: char, rest: string)
    requires KnownLetter(c) && (rest == "" || !Sticky(rest[0]))
    ensures ReadHead([c] + rest) == Head([c], "", 1)
  {
    LetterAlone(c);
    hide KnownLetter;
    var q := [c] + rest;
    assert q[1..] == rest && q[..1] == [c];
    assert NameLength(q) == 1 + NameLength(rest);
  }

  lemma HeadBraced(c: char, fmt: string, rest: string)
    requires KnownLetter(c) && '}' !in fmt
    ensures ReadHead([c, '{'] + fmt + "}" + rest) == Head([c], fmt, |fmt| + 3)
  {
    LetterAlone(c);
    hide KnownLetter, IndexOf;
    var q := [c, '{'] + fmt + "}" + rest;
    assert q[0] == c && q[1] == '{' && q[2..] == fmt + "}" + rest && q[..1] == [c];
    assert NameLength(q) == 1 + NameLength(q[1..]);
    CloseAfter(fmt, rest);
    assert q[2..2 + |fmt|] == fmt;
  }

  lemma HeadOfField(c: char, fmt: string, rest: string)
    requires KnownLetter(c) && '}' !in fmt
    ensures var p := PrintField(c, fmt, rest);
            |p| > 1 && p[0] == '%' && p[1] != '%'
            && var h := ReadHead(p[1..]);
               h.Head? && h.name == [c] && h.fmt == fmt && p[1 + h.used..] == rest
  {
    hide ReadHead, KnownLetter;
    LetterAlone(c);
    var p := PrintField(c, fmt, rest);
    if fmt == "" && (rest == "" || !Sticky(rest[0])) {
      assert p[1..] == [c] + rest && p[2..] == rest;
      HeadBare(c, rest);
    } else {
      assert p[1..] == [c, '{'] + fmt + "}" + rest && p[|fmt| + 4..] == rest;
      HeadBraced(c, fmt, rest);
    }
  }

  lemma ParseField(c: char, fmt: string, rest: string, text: string)
    requires KnownLetter(c) && '}' !in fmt
    ensures Parse(PrintField(c, fmt, rest), text)
              == Pieces(Flush(text) + [Dir([c], fmt)] + Parse(rest, "").vec, Parse(rest, "").broken)
  {
    HeadOfField(c, fmt, rest);
  }

  function Unresolve(x: Item): Piece {
    match x
    case Text(s) => Lit(s)
    case Field(c, fmt) => Dir([c], fmt)
  }

  function UnresolveAll(items: seq<Item>): seq<Piece> {
    if items == [] then [] else [Unresolve(items[0])] + UnresolveAll(items[1..])
  }

  lemma CanonicalTail(items: seq<Item>)
    requires Canonical(items) && items != []
    ensures Canonical(items[1..]) && WellFormed(items[0])
    ensures items[0].Text? && |items| > 1 ==> !items[1].Text?
  {
    hide WellFormed;
  }

  lemma UnresolveFirst(items: seq<Item>)
    requires items != []
    ensures UnresolveAll(items) == [Unresolve(items[0])] + UnresolveAll(items[1..])
  {
  }

  lemma ParseEnd(text: string)
    ensures Parse("", text) == Pieces(Flush(text) + [], false)
  {
    assert Flush(text) + [] == Flush(text);
  }

  /** Printing and parsing, with literal text pending in front. */
  lemma {:induction false} ParsePrint(items: seq<Item>, text: string)
    requires Canonical(items) && (text != "" && items != [] ==> !items[0].Text?)
    ensures Parse(Print(items), text) == Pieces(Flush(text) + UnresolveAll(items), false)
    decreases |items|
  {
    hide Parse, Canonical, PrintField, Escape, KnownLetter, Flush;
    if items == [] {
      ParseEnd(text);
    } else {
      var rest := items[1..];
      CanonicalTail(items);
      UnresolveFirst(items);
      if items[0].Text? {
        var s := items[0].s;
        ParseText(s, Print(rest), text);
        assert text + s == s;
        ParsePrint(rest, s);
        FlushText(text, s, UnresolveAll(rest));
      } else {
        ParseField(items[0].letter, items[0].fmt, Print(rest), text);
        ParsePrint(rest, "");
        FlushNothing(Flush(text), [Unresolve(items[0])], UnresolveAll(rest));
      }
    }
  }

  lemma FlushText(text: string, s: string, rest: seq<Piece>)
    requires text == "" && s != ""
    ensures Flush(s) + rest == Flush(text) + ([Lit(s)] + rest)
  {
  }

  lemma FlushNothing(a: seq<Piece>, b: seq<Piece>, c: seq<Piece>)
    ensures a + b + (Flush("") + c) == a + (b + c)
  {
  }

  lemma ResolveOne(x: Item)
    requires WellFormed(x)
    ensures Resolve(Unresolve(x)) == x && (x.Field? ==> KnownName([x.letter]))
  {
    if x.Field? { LetterAlone(x.letter); }
  }

  lemma ResolveCons(x: Piece, vec: seq<Piece>)
    ensures ResolveAll([x] + vec)
         == Formatter([Resolve(x)] + ResolveAll(vec).items, ResolveAll(vec).error || (x.Dir? && !KnownName(x.name)))
  {
    hide KnownName, Resolve;
    assert ([x] + vec)[1..] == vec;
  }

  lemma {:induction false} ResolveBack(items: seq<Item>)
    requires forall i :: 0 <= i < |items| ==> WellFormed(items[i])
    ensures ResolveAll(UnresolveAll(items)) == Formatter(items, false)
  {
    hide WellFormed, KnownName, Resolve;
    if items != [] {
      ResolveBack(items[1..]);
      ResolveOne(items[0]);
      UnresolveFirst(items);
      ResolveCons(Unresolve(items[0]), UnresolveAll(items[1..]));
      assert items == [items[0]] + items[1..];
    }
  }

  /** Parsing the printed form of a canonical list gives the list back without error. */
  lemma PrintThenParse(items: seq<Item>)
    requires Canonical(items)
    ensures Formatted(Print(items)) == Formatter(items, false)
  {
    ParsePrint(items, "");
    ResolveBack(items);
    assert Flush("") + UnresolveAll(items) == UnresolveAll(items);
  }

  // ---------------------------------------------------------------- the other direction

  predicate PieceOk(x: Piece) {
    match x
    case Lit(s) => s != ""
    case Dir(name, fmt) => '}' !in fmt
  }

  predicate PiecesOk(vec: seq<Piece>) {
    && (forall i :: 0 <= i < |vec| ==> PieceOk(vec[i]))
    && (forall i :: 0 <= i < |vec| - 1 ==> !(vec[i].Lit? && vec[i + 1].Lit?))
  }

  lemma {:induction false} ParseShape(p: string, text: string)
    requires !Parse(p, text).broken
    ensures PiecesOk(Parse(p, text).vec)
    decreases |p|
  {
    if p == "" {
    } else if p[0] != '%' {
      ParseShape(p[1..], text + [p[0]]);
    } else if |p| > 1 && p[1] == '%' {
      ParseShape(p[2..], text + "%");
    } else {
      var h := ReadHead(p[1..]);
      ParseShape(p[1 + h.used..], "");
      DirShape(text, Dir(h.name, h.fmt), Parse(p[1 + h.used..], "").vec);
    }
  }

  lemma DirShape(text: string, d: Piece, rest: seq<Piece>)
    requires d.Dir? && PieceOk(d) && PiecesOk(rest)
    ensures PiecesOk(Flush(text) + [d] + rest)
  {
    var vec := Flush(text) + [d] + rest;
    var k := |Flush(text)|;
    forall i | 0 <= i < |vec| ensures PieceOk(vec[i]) {
      if i > k { assert vec[i] == rest[i - k - 1]; }
    }
    forall i | 0 <= i < |vec| - 1 ensures !(vec[i].Lit? && vec[i + 1].Lit?) {
      if i > k { assert vec[i] == rest[i - k - 1] && vec[i + 1] == rest[i - k]; }
    }
  }

  lemma {:induction false} ResolvedAt(vec: seq<Piece>, i: nat)
    requires i < |vec| && !ResolveAll(vec).error
    ensures ResolveAll(vec).items[i] == Resolve(vec[i]) && (vec[i].Dir? ==> KnownName(vec[i].name))
  {
    if i > 0 { ResolvedAt(vec[1..], i - 1); }
  }

  /** A list of items is what some pattern parses to without error exactly when it is canonical;
      so every error-free pattern means the same as the printed form of its items. */
  lemma ErrorFreeIsCanonical(p: string)
    requires !Formatted(p).error
    ensures Canonical(Formatted(p).items)
    ensures Formatted(Print(Formatted(p).items)) == Formatted(p)
  {
    var vec := Parse(p, "").vec;
    var items := Formatted(p).items;
    ParseShape(p, "");
    forall i | 0 <= i < |vec|
      ensures items[i] == Resolve(vec[i]) && WellFormed(items[i]) && (items[i].Text? <==> vec[i].Lit?)
    {
      ResolvedAt(vec, i);
    }
    PrintThenParse(items);
  }

  // ---------------------------------------------------------------- what patterns mean

  /** The letters that are directives. */
  predicate Listed(c: char) {
    || c == 'm' || c == 'p' || c == 'r' || c == 'c' || c == 't' || c == 'n'
    || c == 'd' || c == 'f' || c == 'l' || c == 'T' || c == 'F' || c == 'N'
  }

  lemma KnownIsListed(c: char)
    ensures KnownLetter(c) <==> Listed(c)
  {
  }

  /** Text without a percent sign is text. */
  lemma {:induction false} ParsePlain(s: string, text: string)
    requires '%' !in s
    ensures Parse(s, text) == Pieces(Flush(text + s), false)
    decreases |s|
  {
    if s == "" {
      assert text + s == text;
    } else {
      assert '%' !in s[1..];
      ParsePlain(s[1..], text + [s[0]]);
      assert text + [s[0]] + s[1..] == text + s;
    }
  }

  lemma {:induction false} ParsePrefix(pre: string, p: string, text: string)
    requires '%' !in pre
    ensures Parse(pre + p, text) == Parse(p, text + pre)
    decreases |pre|
  {
    if pre == "" {
      assert pre + p == p && text + pre == text;
    } else {
      assert (pre + p)[1..] == pre[1..] + p && '%' !in pre[1..];
      ParsePrefix(pre[1..], p, text + [pre[0]]);
      assert text + [pre[0]] + pre[1..] == text + pre;
    }
  }

  /** The characters of a directive name. */
  predicate NameChars(name: string) {
    forall k :: 0 <= k < |name| ==> 'a' <= name[k] <= 'z' || 'A' <= name[k] <= 'Z' || name[k] == '}'
  }

  lemma {:induction false} NameEnds(name: string, rest: string)
    requires NameChars(name)
    requires rest != "" ==> !('a' <= rest[0] <= 'z' || 'A' <= rest[0] <= 'Z' || rest[0] == '}')
    ensures NameLength(name + rest) == |name|
  {
    if name == "" {
      assert name + rest == rest;
    } else {
      assert (name + rest)[1..] == name[1..] + rest;
      NameEnds(name[1..], rest);
    }
  }

  lemma DirectiveHead(name: string, braced: bool, fmt: string, rest: string)
    requires NameChars(name) && '}' !in fmt && (braced || fmt == "")
    requires !braced && rest != "" ==>
               !('a' <= rest[0] <= 'z' || 'A' <= rest[0] <= 'Z' || rest[0] == '{' || rest[0] == '}')
    ensures var q := name + (if braced then "{" + fmt + "}" else "") + rest;
            var h := ReadHead(q);
            h.Head? && h.name == name && h.fmt == fmt && q[h.used..] == rest
  {
    hide IndexOf, NameLength;
    var q := name + (if braced then "{" + fmt + "}" else "") + rest;
    if braced {
      var tail := "{" + fmt + "}" + rest;
      assert q == name + tail;
      NameEnds(name, tail);
      var n := |name|;
      assert q[n] == '{' && q[..n] == name && q[n + 1..] == fmt + "}" + rest;
      CloseAfter(fmt, rest);
      assert q[n + 1..n + 1 + |fmt|] == fmt;
      assert q[n + |fmt| + 2..] == rest;
    } else {
      assert q == name + rest;
      NameEnds(name, rest);
      assert q[..|name|] == name && q[|name|..] == rest;
    }
  }

  /** Text as an item; nothing if there is none. */
  function TextItem(s: string): seq<Item> {
    if s == "" then [] else [Text(s)]
  }

  /** Text, a directive with or without a format, and text: a field without error exactly when the name is one of
      the twelve letters; otherwise the error text in its place, and the error flag. */
  lemma DirectiveMeans(pre: string, name: string, braced: bool, fmt: string, post: string)
    requires '%' !in pre && '%' !in post && NameChars(name) && '}' !in fmt && (braced || fmt == "")
    requires !braced && post != "" ==>
               !('a' <= post[0] <= 'z' || 'A' <= post[0] <= 'Z' || post[0] == '{' || post[0] == '}')
    ensures var known := |name| == 1 && Listed(name[0]);
            Formatted(pre + "%" + name + (if braced then "{" + fmt + "}" else "") + post)
            == Formatter(TextItem(pre)
                         + [if known then Field(name[0], fmt) else Text("<<error_format %" + name + ">>")]
                         + TextItem(post), !known)
  {
    hide Parse, ReadHead, KnownLetter, Resolve;
    DirectivePieces(pre, name, braced, fmt, post);
    if |name| == 1 { KnownIsListed(name[0]); }
    ResolveThree(pre, Dir(name, fmt), post);
    ResolveDir(name, fmt);
  }

  lemma ResolveDir(name: string, fmt: string)
    ensures Resolve(Dir(name, fmt))
         == if KnownName(name) then Field(name[0], fmt) else Text("<<error_format %" + name + ">>")
  {
  }

  lemma DirectivePieces(pre: string, name: string, braced: bool, fmt: string, post: string)
    requires '%' !in pre && '%' !in post && NameChars(name) && '}' !in fmt && (braced || fmt == "")
    requires !braced && post != "" ==>
               !('a' <= post[0] <= 'z' || 'A' <= post[0] <= 'Z' || post[0] == '{' || post[0] == '}')
    ensures Parse(pre + "%" + name + (if braced then "{" + fmt + "}" else "") + post, "")
         == Pieces(Flush(pre) + [Dir(name, fmt)] + Flush(post), false)
  {
    hide Parse, ReadHead, Flush;
    var fmts := if braced then "{" + fmt + "}" else "";
    var body := name + fmts + post;
    var p := "%" + body;
    assert pre + "%" + name + fmts + post == pre + p;
    ParsePrefix(pre, p, "");
    assert "" + pre == pre && "" + post == post;
    DirectiveHead(name, braced, fmt, post);
    assert p[1..] == body;
    assert body != "" ==> body[0] == (if name != "" then name[0] else if braced then '{' else post[0]);
    assert post != "" ==> post[0] in post;
    DirectiveParse(p, pre, name, fmt, post);
    ParsePlain(post, "");
  }

  lemma DirectiveParse(p: string, text: string, name: string, fmt: string, post: string)
    requires p != "" && p[0] == '%' && (|p| > 1 ==> p[1] != '%')
    requires var h := ReadHead(p[1..]); h.Head? && h.name == name && h.fmt == fmt && p[1..][h.used..] == post
    ensures Parse(p, text)
         == Pieces(Flush(text) + [Dir(name, fmt)] + Parse(post, "").vec, Parse(post, "").broken)
  {
    var h := ReadHead(p[1..]);
    assert p[1 + h.used..] == post;
    hide ReadHead;
  }

  lemma ResolveThree(pre: string, d: Piece, post: string)
    requires d.Dir?
    ensures ResolveAll(Flush(pre) + [d] + Flush(post))
         == Formatter(TextItem(pre) + [Resolve(d)] + TextItem(post), !KnownName(d.name))
  {
    hide KnownName;
    var tail := ResolveAll(Flush(post));
    ResolveCons(Lit(post), []);
    assert [Lit(post)] + [] == [Lit(post)];
    assert tail == Formatter(TextItem(post), false);
    ResolveCons(d, Flush(post));
    if pre != "" {
      ResolveCons(Lit(pre), [d] + Flush(post));
      assert Flush(pre) + [d] + Flush(post) == [Lit(pre)] + ([d] + Flush(post));
    } else {
      assert Flush(pre) + [d] + Flush(post) == [d] + Flush(post);
    }
  }

  /** A format that is not closed: the error text comes first, and the whole directive is literal text, joined to
      the text before it. */
  lemma UnclosedMeans(pre: string, name: string, rest: string)
    requires '%' !in pre && '%' !in rest && '}' !in rest && NameChars(name)
    ensures Formatted(pre + "%" + name + "{" + rest)
         == Formatter([Text("<<pattern_error>>"), Text(pre + name + "{" + rest)], true)
  {
    hide Parse, ReadHead;
    UnclosedPieces(pre, name, rest);
    var a, b := Lit("<<pattern_error>>"), Lit(pre + name + "{" + rest);
    ResolveCons(b, []);
    ResolveCons(a, [b]);
    assert [b] + [] == [b] && [a] + [b] == [a, b];
  }

  lemma UnclosedPieces(pre: string, name: string, rest: string)
    requires '%' !in pre && '%' !in rest && '}' !in rest && NameChars(name)
    ensures Parse(pre + "%" + name + "{" + rest, "")
         == Pieces([Lit("<<pattern_error>>"), Lit(pre + name + "{" + rest)], true)
  {
    hide Parse, ReadHead;
    var tail := name + ("{" + rest);
    var p := "%" + tail;
    assert pre + "%" + name + "{" + rest == pre + p;
    ParsePrefix(pre, p, "");
    assert "" + pre == pre;
    UnclosedHead(name, rest);
    assert p[1..] == tail && tail[0] == (if name != "" then name[0] else '{');
    assert '%' !in tail;
    ParsePlain(tail, pre);
    assert pre + tail == pre + name + "{" + rest;
    UnclosedParse(p, pre);
  }

  lemma UnclosedHead(name: string, rest: string)
    requires NameChars(name) && '}' !in rest
    ensures ReadHead(name + ("{" + rest)) == Unclosed
  {
    hide NameLength;
    var q := name + ("{" + rest);
    NameEnds(name, "{" + rest);
    assert q[|name|] == '{' && q[|name| + 1..] == rest;
    assert forall k :: 0 <= k < |rest| ==> rest[k] != '}';
  }

  lemma UnclosedParse(p: string, text: string)
    requires p != "" && p[0] == '%' && (|p| > 1 ==> p[1] != '%') && ReadHead(p[1..]) == Unclosed
    ensures Parse(p, text) == Pieces([Lit("<<pattern_error>>")] + Parse(p[1..], text).vec, true)
  {
    hide ReadHead;
  }

  /** Two percent signs are one. */
  lemma PercentMeans(pre: string, post: string)
    requires '%' !in pre && '%' !in post
    ensures Formatted(pre + "%%" + post) == Formatter([Text(pre + "%" + post)], false)
  {
    ParsePrefix(pre, "%%" + post, "");
    assert pre + "%%" + post == pre + ("%%" + post) && "" + pre == pre;
    ParseChar('%', post, pre);
    ParsePlain(post, pre + ['%']);
    assert pre + ['%'] + post == pre + "%" + post;
    hide Parse;
    ResolveCons(Lit(pre + "%" + post), []);
    assert [Lit(pre + "%" + post)] + [] == [Lit(pre + "%" + post)];
  }

  // ---------------------------------------------------------------- the default pattern

  const TAB := Field('T', "")

  /** The items of the pattern a new logger gets, in five parts. */
  const DATE := [Field('d', "%Y-%m-%d %H:%M:%S"), TAB]
  const IDS := [Field('t', ""), TAB, Field('N', ""), TAB, Field('F', ""), TAB]
  const LEVEL := [Text("["), Field('p', ""), Text("]"), TAB]
  const NAME := [Text("["), Field('c', ""), Text("]"), TAB]
  const PLACE := [Field('f', ""), Text(":"), Field('l', ""), TAB, Field('m', ""), Field('n', "")]

  lemma PrintBare(c: char, rest: seq<Item>, text: string)
    requires Print(rest) == text && (text == "" || !Sticky(text[0]))
    ensures Print([Field(c, "")] + rest) == ['%', c] + text
  {
    assert ([Field(c, "")] + rest)[1..] == rest;
  }

  lemma PrintChar(c: char, rest: seq<Item>, text: string)
    requires Print(rest) == text && c != '%'
    ensures Print([Text([c])] + rest) == [c] + text
  {
    assert ([Text([c])] + rest)[1..] == rest;
    assert [c][1..] == "" && Escape([c]) == [c] + Escape("");
    assert [c] + "" == [c];
  }

  lemma EmptyPrints()
    ensures Print([]) == ""
  {
  }

  lemma PrintPlace()
    ensures Print(PLACE) == "%f:%l%T%m%n"
  {
    hide Print;
    EmptyPrints();
    PrintBare('n', [], "");
    var i5 := [Field('n', "")] + [];
    PrintBare('m', i5, "%n");
    var i4 := [Field('m', "")] + i5;
    PrintBare('T', i4, "%m%n");
    var i3 := [TAB] + i4;
    PrintBare('l', i3, "%T%m%n");
    var i2 := [Field('l', "")] + i3;
    PrintChar(':', i2, "%l%T%m%n");
    var i1 := [Text(":")] + i2;
    PrintBare('f', i1, ":%l%T%m%n");
    var i0 := [Field('f', "")] + i1;
    assert PLACE == i0;
  }

  lemma PrintName(rest: seq<Item>, text: string)
    requires Print(rest) == text && text != "" && !Sticky(text[0])
    ensures Print(NAME + rest) == "[%c]%T" + text
  {
    hide Print;
    PrintBare('T', rest, text);
    var i3 := [TAB] + rest;
    PrintChar(']', i3, "%T" + text);
    var i2 := [Text("]")] + i3;
    PrintBare('c', i2, "]%T" + text);
    var i1 := [Field('c', "")] + i2;
    PrintChar('[', i1, "%c]%T" + text);
    var i0 := [Text("[")] + i1;
    assert NAME + rest == i0;
  }

  lemma PrintLevel(rest: seq<Item>, text: string)
    requires Print(rest) == text && text != "" && !Sticky(text[0])
    ensures Print(LEVEL + rest) == "[%p]%T" + text
  {
    hide Print;
    PrintBare('T', rest, text);
    var i3 := [TAB] + rest;
    PrintChar(']', i3, "%T" + text);
    var i2 := [Text("]")] + i3;
    PrintBare('p', i2, "]%T" + text);
    var i1 := [Field('p', "")] + i2;
    PrintChar('[', i1, "%p]%T" + text);
    var i0 := [Text("[")] + i1;
    assert LEVEL + rest == i0;
  }

  lemma PrintIds(rest: seq<Item>, text: string)
    requires Print(rest) == text && text != "" && !Sticky(text[0])
    ensures Print(IDS + rest) == "%t%T%N%T%F%T" + text
  {
    hide Print;
    PrintBare('T', rest, text);
    var i5 := [TAB] + rest;
    PrintBare('F', i5, "%T" + text);
    var i4 := [Field('F', "")] + i5;
    PrintBare('T', i4, "%F%T" + text);
    var i3 := [TAB] + i4;
    PrintBare('N', i3, "%T%F%T" + text);
    var i2 := [Field('N', "")] + i3;
    PrintBare('T', i2, "%N%T%F%T" + text);
    var i1 := [TAB] + i2;
    PrintBare('t', i1, "%T%N%T%F%T" + text);
    var i0 := [Field('t', "")] + i1;
    assert IDS + rest == i0;
  }

  lemma PrintDate(rest: seq<Item>, text: string)
    requires Print(rest) == text && text != "" && !Sticky(text[0])
    ensures Print(DATE + rest) == "%d{%Y-%m-%d %H:%M:%S}%T" + text
  {
    PrintBare('T', rest, text);
    var tail := [TAB] + rest;
    var d := [Field('d', "%Y-%m-%d %H:%M:%S")];
    assert DATE + rest == d + tail && (d + tail)[1..] == tail;
    assert ['%', 'd', '{'] + "%Y-%m-%d %H:%M:%S" + "}" + (['%', 'T'] + text) == "%d{%Y-%m-%d %H:%M:%S}%T" + text;
  }

  /** The default pattern, in the same five parts. */
  const DEFAULT_PATTERN: string :=
    "%d{%Y-%m-%d %H:%M:%S}%T" + ("%t%T%N%T%F%T" + ("[%p]%T" + ("[%c]%T" + "%f:%l%T%m%n")))

  lemma PrintDefault()
    ensures Print(DATE + (IDS + (LEVEL + (NAME + PLACE)))) == DEFAULT_PATTERN
  {
    hide Print, Sticky;
    FirstChars();
    PrintPlace();
    var a := "%f:%l%T%m%n";
    PrintName(PLACE, a);
    var b := "[%c]%T" + a;
    PrintLevel(NAME + PLACE, b);
    var c := "[%p]%T" + b;
    PrintIds(LEVEL + (NAME + PLACE), c);
    var d := "%t%T%N%T%F%T" + c;
    PrintDate(IDS + (LEVEL + (NAME + PLACE)), d);
  }

  lemma FirstChars()
    ensures !Sticky('%') && !Sticky('[')
  {
  }

  lemma CanonicalJoin(a: seq<Item>, b: seq<Item>)
    requires Canonical(a) && Canonical(b) && a != [] && b != [] && !(a[|a| - 1].Text? && b[0].Text?)
    ensures Canonical(a + b)
  {
    hide WellFormed;
    var c := a + b;
    forall i | 0 <= i < |c| - 1 ensures !(c[i].Text? && c[i + 1].Text?) {
      if i >= |a| { assert c[i] == b[i - |a|] && c[i + 1] == b[i + 1 - |a|]; }
    }
  }

  lemma CanonicalParts()
    ensures Canonical(DATE) && Canonical(IDS) && Canonical(LEVEL) && Canonical(NAME) && Canonical(PLACE)
  {
    hide KnownLetter;
    forall c: char | Listed(c) ensures KnownLetter(c) { KnownIsListed(c); }
  }

  lemma DefaultCanonical()
    ensures Canonical(DATE + (IDS + (LEVEL + (NAME + PLACE))))
  {
    CanonicalParts();
    hide Canonical;
    CanonicalJoin(NAME, PLACE);
    CanonicalJoin(LEVEL, NAME + PLACE);
    CanonicalJoin(IDS, LEVEL + (NAME + PLACE));
    CanonicalJoin(DATE, IDS + (LEVEL + (NAME + PLACE)));
  }

  /** The pattern every logger starts with gives its twenty-two items and no error. */
  method DefaultPattern() returns (r: Formatter)
    ensures r == Formatter(
              [Field('d', "%Y-%m-%d %H:%M:%S"), Field('T', ""), Field('t', ""), Field('T', ""), Field('N', ""),
               Field('T', ""), Field('F', ""), Field('T', ""), Text("["), Field('p', ""), Text("]"), Field('T', ""),
               Text("["), Field('c', ""), Text("]"), Field('T', ""), Field('f', ""), Text(":"), Field('l', ""),
               Field('T', ""), Field('m', ""), Field('n', "")], false)
  {
    hide Parse, Print, Canonical, Formatted;
    PrintDefault();
    DefaultCanonical();
    PrintThenParse(DATE + (IDS + (LEVEL + (NAME + PLACE))));
    r := Init(DEFAULT_PATTERN);
  }
}

/** What the pattern parser does, told on characters: the patterns it is meant for, all the patterns it
    accepts, and what becomes of the others. */
module PatternLaws {
  import opened Pattern

  predicate Letter(c: char) { 'a' <= c <= 'z' || 'A' <= c <= 'Z' }

  predicate Word(name: string) { name != "" && forall i | 0 <= i < |name| :: 'a' <= name[i] <= 'z' || 'A' <= name[i] <= 'Z' }

  lemma NameCharsAre(c: char)
    ensures NameChar(c) <==> 'a' <= c <= 'z' || 'A' <= c <= 'Z' || c == '}'
  {
  }

  // What may follow a bare name: a placeholder, or text that does not read as part of the name.
  predicate Follows(ps: seq<Piece>) {
    ps != [] && ps[0].Lit? ==> ps[0].text != "" && !Letter(ps[0].text[0]) && ps[0].text[0] != '{' && ps[0].text[0] != '}'
  }

  /** Text without percent signs, names of letters, formats without a closing brace; no text next to
      text, and none that continues a bare name. */
  predicate Simple(ps: seq<Piece>) {
    ps == [] ||
    (&& Simple(ps[1..])
     && match ps[0]
        case Lit(x) => x != "" && '%' !in x && (|ps| > 1 ==> !ps[1].Lit?)
        case Bare(name) => Word(name) && Follows(ps[1..])
        case Formatted(name, fmt) => Word(name) && '}' !in fmt)
  }

  lemma {:induction false} SimpleIsProper(ps: seq<Piece>)
    requires Simple(ps)
    ensures Proper(ps)
  {
    if ps != [] {
      SimpleIsProper(ps[1..]);
      var q := Print(ps[1..]);
      match ps[0]
      case Lit(x) => assert forall i | 0 <= i < |x| :: x[i] in x;
      case Bare(name) =>
        forall i | 0 <= i < |name| ensures NameChar(name[i]) { NameCharsAre(name[i]); }
        BareEnds(name, ps[1..]);
      case Formatted(name, fmt) =>
        forall i | 0 <= i < |name| ensures NameChar(name[i]) { NameCharsAre(name[i]); }
    }
  }

  lemma BareEnds(name: string, ps: seq<Piece>)
    requires Word(name) && Simple(ps) && Follows(ps)
    ensures Ends(name, Print(ps))
  {
    if ps != [] {
      assert Print(ps)[0] == Write(ps[0])[0];
      NameCharsAre(Print(ps)[0]);
    }
  }

  /** The patterns the parser is meant for: printed and parsed, such a list comes back exactly. */
  lemma SimpleParses(ps: seq<Piece>)
    requires Simple(ps)
    ensures Parse(Print(ps), "") == Parsed(Items(ps), false)
  {
    SimpleIsProper(ps);
    ProperParses(ps);
  }

  // ---- Every pattern without an error ----

  // A placeholder with a format at the front, taken off.
  lemma FrontFormatted(s: string, e: nat, k: nat)
    requires s != "" && s[0] == '%' && e == NameLen(s[1..]) && e + 1 < |s| && s[e + 1] == '{'
    requires k == FmtLen(s[1..][e + 1..]) && e + 2 + k < |s|
    ensures var name, fmt := s[1..][..e], s[1..][e + 1..e + 1 + k];
            && s == Write(Formatted(name, fmt)) + s[e + k + 3..] && '}' !in fmt
            && forall i | 0 <= i < |name| :: NameChar(name[i])
  {
    var t := s[1..];
    var name, fmt := t[..e], t[e + 1..e + 1 + k];
    forall i | 0 <= i < |name| ensures NameChar(name[i]) { assert name[i] == t[i]; }
    forall i | 0 <= i < |fmt| ensures fmt[i] != '}' { assert fmt[i] == t[e + 1..][i]; }
    assert t[e + 1..][k] == '}';
    hide NameLen, FmtLen, NameChar;
    Apart(s, e, k);
  }

  lemma Apart(s: string, e: nat, k: nat)
    requires e + k + 2 < |s| && s[0] == '%' && s[e + 1] == '{' && s[e + k + 2] == '}'
    ensures s == Write(Formatted(s[1..][..e], s[1..][e + 1..e + 1 + k])) + s[e + k + 3..]
  {
    var t := s[1..];
    var name, fmt, q := t[..e], t[e + 1..e + 1 + k], s[e + k + 3..];
    var w := Write(Formatted(name, fmt));
    assert w == "%" + (name + ("{" + (fmt + "}")));
    hide Write;
    assert |w| == e + k + 3 && w[0] == '%' && w[e + 1] == '{' && w[e + k + 2] == '}';
    forall i | 0 <= i < |w| ensures w[i] == s[i] {
      if 1 <= i <= e { assert w[i] == name[i - 1] == s[i]; }
      if e + 1 < i < e + k + 2 { assert w[i] == fmt[i - e - 2] == s[i]; }
    }
    assert s[..e + k + 3] == w;
  }

  lemma FrontBare(s: string, e: nat)
    requires AtField(s) && e == NameLen(s[1..]) && (e + 1 < |s| ==> s[e + 1] != '{')
    ensures var name := s[1..][..e];
            && s == Write(Bare(name)) + s[e + 1..] && Ends(name, s[e + 1..]) && forall i | 0 <= i < |name| :: NameChar(name[i])
  {
    var t := s[1..];
    forall i | 0 <= i < e ensures NameChar(t[..e][i]) { assert t[..e][i] == t[i]; }
    assert e < |t| ==> t[e] == s[e + 1];
    assert s == "%" + t && t == t[..e] + s[e + 1..];
  }

  // A placeholder at the front, taken off.
  lemma FrontField(s: string) returns (x: Piece)
    requires AtField(s) && Scan(s[1..]).Placeholder?
    ensures var f := Scan(s[1..]);
            && !x.Lit? && ItemOf(x) == Field(f.name, f.fmt) && s == Write(x) + s[1 + f.len..]
            && ProperField(x, s[1 + f.len..])
  {
    hide NameLen, FmtLen, Write;
    var t := s[1..];
    var e := NameLen(t);
    if e < |t| && t[e] == '{' {
      var k := FmtLen(t[e + 1..]);
      FrontFormatted(s, e, k);
      x := Formatted(t[..e], t[e + 1..e + 1 + k]);
    } else {
      FrontBare(s, e);
      x := Bare(t[..e]);
    }
  }

  lemma {:induction false} Unparse(s: string) returns (ps: seq<Piece>)
    requires !Parse(s, "").error
    ensures Proper(ps) && Print(ps) == s && Items(ps) == Parse(s, "").items
    ensures AtField(s) ==> ps != [] && !ps[0].Lit?
    decreases |s|
  {
    Shape(s);
    var n := LitLen(s);
    if s == "" {
      return [];
    } else if n > 0 {
      hide Parse, Scan;
      assert |s[n..]| < |s|;
      var rest := Unparse(s[n..]);
      LitAtFront(s, rest);
      return [Lit(s[..n])] + rest;
    } else {
      var f := Scan(s[1..]);
      hide Parse, Scan;
      var x := FrontField(s);
      var q := s[1 + f.len..];
      var rest := Unparse(q);
      assert ([x] + rest)[1..] == rest;
      return [x] + rest;
    }
  }

  lemma ProperNotEmpty(ps: seq<Piece>)
    requires Proper(ps) && ps != []
    ensures Print(ps) != ""
  {
  }

  lemma LitAtFront(s: string, rest: seq<Piece>)
    requires LitLen(s) > 0 && Proper(rest) && Print(rest) == s[LitLen(s)..]
    requires AtField(s[LitLen(s)..]) ==> rest != [] && !rest[0].Lit?
    ensures var ps := [Lit(s[..LitLen(s)])] + rest;
            Proper(ps) && Print(ps) == s && Items(ps) == [Text(s[..LitLen(s)])] + Items(rest)
  {
    var n := LitLen(s);
    var x, ps := s[..n], [Lit(s[..n])] + rest;
    assert ps[1..] == rest && x + s[n..] == s;
    forall i | 0 <= i < |x| && x[i] == '%' ensures i + 1 < |x + s[n..]| && (x + s[n..])[i + 1] == '%' { LitLenMeans(s, i); }
    if rest != [] { ProperNotEmpty(rest); }
  }

  /** A pattern is parsed without an error if and only if it is the print of some proper list. */
  lemma ErrorExactly(s: string)
    ensures !Parse(s, "").error <==> exists ps :: Proper(ps) && Print(ps) == s
  {
    hide Parse;
    if !Parse(s, "").error { var ps := Unparse(s); }
    if ps :| Proper(ps) && Print(ps) == s { ProperParses(ps); }
  }

  // ---- A format that is never closed ----

  lemma {:induction false} PlainText(s: string, lit: string)
    requires '%' !in s && lit + s != ""
    ensures Parse(s, lit) == Parsed([Text(lit + s)], false)
  {
    if s == "" {
      assert lit + s == lit;
    } else {
      assert s[0] in s;
      PlainText(s[1..], lit + [s[0]]);
      assert lit + [s[0]] + s[1..] == lit + s;
    }
  }

  lemma {:induction false} TextFirst(t: string, q: string, lit: string)
    requires '%' !in t
    ensures Parse(t + q, lit) == Parse(q, lit + t)
  {
    if t == "" {
      assert t + q == q && lit + t == lit;
    } else {
      assert t[0] in t && (t + q)[1..] == t[1..] + q;
      TextFirst(t[1..], q, lit + [t[0]]);
      assert lit + [t[0]] + t[1..] == lit + t;
    }
  }

  /** The error item comes before the text collected so far, the percent sign is lost, and the rest is
      read as text. */
  lemma UnclosedIsAnError(text: string, name: string, rest: string)
    requires '%' !in text && Word(name) && '%' !in rest && '}' !in rest
    ensures Parse(text + ("%" + (name + ("{" + rest))), "")
         == Parsed([Text("<<pattern_error>>"), Text(text + (name + ("{" + rest)))], true)
  {
    var u := name + ("{" + rest);
    TextFirst(text, "%" + u, "");
    assert "" + text == text;
    Unscanned(name, rest);
    assert ("%" + u)[1..] == u && u[0] == name[0];
    NoPercent(name, rest);
    PlainText(u, text);
    assert [Text(ERROR)] + [Text(text + u)] == [Text(ERROR), Text(text + u)];
  }

  lemma NoPercent(name: string, rest: string)
    requires Word(name) && '%' !in rest
    ensures '%' !in name + ("{" + rest)
  {
    var u := name + ("{" + rest);
    forall i | 0 <= i < |u| ensures u[i] != '%' {
      if i > |name| { assert u[i] == rest[i - |name| - 1]; }
    }
  }

  lemma Unscanned(name: string, rest: string)
    requires Word(name) && '}' !in rest
    ensures Scan(name + ("{" + rest)).Unclosed?
  {
    var t := name + ("{" + rest);
    forall j | 0 <= j < |name| ensures NameChar(t[j]) { NameCharsAre(name[j]); }
    forall j | |name| < j < |t| ensures t[j] != '}' { assert t[j] == rest[j - |name| - 1]; }
    ScanAt(t, |name|, |rest|);
  }

  // ---- Patterns of the program ----

  /** A closing brace that closes nothing belongs to the name. */
  lemma BraceInName()
    ensures Parse("%a}b", "") == Parsed([Field("a}b", "")], false)
  {
    var p := "%a}b";
    ParseTurn(p, 0, "");
    NameCharsAre('a');
    NameCharsAre('}');
    NameCharsAre('b');
    ScanBare(p, 0, 4);
    hide Parse, Scan;
    assert p[1..4] == "a}b" && p[4..] == "" && p[0..] == p;
    ParseNothing([Field("a}b", "")], false, "");
    assert [] + [Field("a}b", "")] == [Field("a}b", "")] && [Field("a}b", "")] + [] == [Field("a}b", "")];
  }

  lemma PrintCons(x: Piece, ps: seq<Piece>)
    ensures Print([x] + ps) == Write(x) + Print(ps)
  {
    assert ([x] + ps)[1..] == ps;
  }

  lemma SimpleBare(c: char, ps: seq<Piece>)
    requires Simple(ps) && Follows(ps) && ('a' <= c <= 'z' || 'A' <= c <= 'Z')
    ensures Simple([Bare([c])] + ps)
  {
    assert ([Bare([c])] + ps)[1..] == ps;
  }

  const TNF: seq<Piece> := [Bare("T")] + ([Bare("N")] + [Bare("F")])

  lemma TnfIsSimple()
    ensures Simple(TNF)
  {
    hide Simple;
    SimpleNothing();
    SimpleBare('F', []);
    assert [Bare("F")] + [] == [Bare("F")];
    SimpleBare('N', [Bare("F")]);
    SimpleBare('T', [Bare("N")] + [Bare("F")]);
  }

  lemma SimpleNothing()
    ensures Simple([]) && Print([]) == "" && Items([]) == []
  {
  }

  lemma ItemsCons(x: Piece, ps: seq<Piece>)
    ensures Items([x] + ps) == [ItemOf(x)] + Items(ps)
  {
    assert ([x] + ps)[1..] == ps;
  }

  lemma TnfPrints()
    ensures Print(TNF) == "%T%N%F" && Items(TNF) == [Field("T", ""), Field("N", ""), Field("F", "")]
  {
    hide Print, Items;
    SimpleNothing();
    assert [Bare("F")] + [] == [Bare("F")];
    PrintCons(Bare("F"), []);
    PrintCons(Bare("N"), [Bare("F")]);
    PrintCons(Bare("T"), [Bare("N")] + [Bare("F")]);
    ItemsCons(Bare("F"), []);
    ItemsCons(Bare("N"), [Bare("F")]);
    ItemsCons(Bare("T"), [Bare("N")] + [Bare("F")]);
  }

  /** As in the pattern that a new logger starts with. */
  lemma CapitalsAreLetters()
    ensures Parse("%T%N%F", "") == Parsed([Field("T", ""), Field("N", ""), Field("F", "")], false)
  {
    hide Parse, Simple, Print, Items;
    TnfIsSimple();
    TnfPrints();
    SimpleParses(TNF);
  }
}

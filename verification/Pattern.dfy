/** LogFormatter::init: the pattern parser, against a printer of patterns. */
module Pattern {

  // The parser's tuples: literal text (type 0), or a placeholder's name and format (type 1).
  datatype Item = Text(text: string) | Field(name: string, fmt: string)

  datatype Parsed = Parsed(items: seq<Item>, error: bool)

  const ERROR := "<<pattern_error>>"

  predicate IsAlpha(c: char) { 'a' <= c <= 'z' || 'A' <= c <= 'Z' }

  // What the scan of a name runs over: a closing brace does not end it.
  predicate NameChar(c: char) { IsAlpha(c) || c == '}' }

  function NameLen(t: string): (n: nat)
    ensures n <= |t| && forall i | 0 <= i < n :: NameChar(t[i])
    ensures n < |t| ==> !NameChar(t[n])
  {
    if t == "" || !NameChar(t[0]) then 0 else 1 + NameLen(t[1..])
  }

  function FmtLen(t: string): (n: nat)
    ensures n <= |t| && forall i | 0 <= i < n :: t[i] != '}'
    ensures n < |t| ==> t[n] == '}'
  {
    if t == "" || t[0] == '}' then 0 else 1 + FmtLen(t[1..])
  }

  // What follows a percent sign: a placeholder that takes `len` characters, or a format that is never closed.
  datatype Scanned = Placeholder(name: string, fmt: string, len: nat) | Unclosed

  function Scan(t: string): (r: Scanned)
    ensures r.Placeholder? ==> r.len <= |t|
  {
    var e := NameLen(t);
    if e < |t| && t[e] == '{' then
      var k := FmtLen(t[e + 1..]);
      if e + 1 + k == |t| then Unclosed else Placeholder(t[..e], t[e + 1..e + 1 + k], e + k + 2)
    else Placeholder(t[..e], "", e)
  }

  function Flush(lit: string): seq<Item> { if lit == "" then [] else [Text(lit)] }

  function Prepend(items: seq<Item>, error: bool, r: Parsed): Parsed {
    Parsed(items + r.items, error || r.error)
  }

  // The rest of the pattern, `lit` being the literal text collected so far.
  function Parse(s: string, lit: string): Parsed
    decreases |s|
  {
    if s == "" then Parsed(Flush(lit), false)
    else if s[0] != '%' then Parse(s[1..], lit + [s[0]])
    else if |s| > 1 && s[1] == '%' then Parse(s[1..], lit + "%")
    else
      match Scan(s[1..])
      case Placeholder(name, fmt, len) =>
        Prepend(Flush(lit) + [Field(name, fmt)], false, Parse(s[1 + len..], ""))
      case Unclosed => Prepend([Text(ERROR)], true, Parse(s[1..], lit))
  }

  // ---- The loops ----

  lemma NameLenIs(t: string, n: nat)
    requires n <= |t| && (forall i | 0 <= i < n :: NameChar(t[i])) && (n < |t| ==> !NameChar(t[n]))
    ensures NameLen(t) == n
  {
  }

  lemma FmtLenIs(t: string, n: nat)
    requires n <= |t| && (forall i | 0 <= i < n :: t[i] != '}') && (n < |t| ==> t[n] == '}')
    ensures FmtLen(t) == n
  {
  }

  predicate Names(p: string, from: nat, to: nat)
    requires from <= to <= |p|
  {
    forall k | from <= k < to :: NameChar(p[k])
  }

  predicate NotClosed(p: string, from: nat, to: nat)
    requires from <= to <= |p|
  {
    forall k | from <= k < to :: p[k] != '}'
  }

  // A name that ends at `n` without a format.
  lemma ScanBare(p: string, i: nat, n: nat)
    requires i < n <= |p| && Names(p, i + 1, n) && (n < |p| ==> !NameChar(p[n]) && p[n] != '{')
    ensures Scan(p[i + 1..]) == Placeholder(p[i + 1..n], "", n - i - 1)
  {
    NameLenIs(p[i + 1..], n - i - 1);
  }

  lemma ScanAt(t: string, e: nat, k: nat)
    requires e + 1 + k <= |t| && t[e] == '{' && (forall j | 0 <= j < e :: NameChar(t[j]))
    requires (forall j | e < j < e + 1 + k :: t[j] != '}') && (e + 1 + k < |t| ==> t[e + 1 + k] == '}')
    ensures Scan(t) == if e + 1 + k == |t| then Unclosed else Placeholder(t[..e], t[e + 1..e + 1 + k], e + k + 2)
  {
    NameLenIs(t, e);
    var u := t[e + 1..];
    assert forall j | 0 <= j < |u| :: u[j] == t[e + 1 + j];
    FmtLenIs(u, k);
    hide NameLen, FmtLen;
  }

  // A name that ends at the brace at `b`, and a format that ends at `n`, or not at all.
  lemma ScanBraced(p: string, i: nat, b: nat, n: nat)
    requires i < b < n <= |p| && Names(p, i + 1, b) && p[b] == '{'
    requires NotClosed(p, b + 1, n) && (n < |p| ==> p[n] == '}')
    ensures Scan(p[i + 1..]) == if n == |p| then Unclosed else Placeholder(p[i + 1..b], p[b + 1..n], n - i)
  {
    var t, e, k := p[i + 1..], b - i - 1, n - b - 1;
    assert forall j | 0 <= j < |t| :: t[j] == p[i + 1 + j];
    ScanAt(t, e, k);
    hide Scan, Names, NotClosed;
    assert t[..e] == p[i + 1..b];
    assert t[e + 1..e + 1 + k] == p[b + 1..n];
  }

  // The inner loop, over the characters after the percent sign at `i`.
  method ScanField(p: string, i: nat) returns (str: string, fmt: string, n: nat, open: bool)
    requires i < |p|
    ensures i < n <= |p|
    ensures match Scan(p[i + 1..])
            case Placeholder(name, f, len) => !open && str == name && fmt == f && n == i + 1 + len
            case Unclosed => open && fmt == ""
  {
    hide Scan, NameChar, Names, NotClosed;
    str, fmt, n, open := "", "", i + 1, false;
    var begin := 0;
    assert Names(p, i + 1, n) by { NoNames(p, n); }
    while n < |p|
      invariant i < n <= |p| && fmt == ""
      invariant !open ==> Names(p, i + 1, n) && str == if n == |p| then p[i + 1..] else ""
      invariant open ==> i < begin < n && Names(p, i + 1, begin) && p[begin] == '{' && NotClosed(p, begin + 1, n)
      invariant open && n < |p| ==> str == p[i + 1..begin]
    {
      if !open && !IsAlpha(p[n]) && p[n] != '{' && p[n] != '}' {
        str := p[i + 1..n];
        NameKinds(p[n]);
        ScanBare(p, i, n);
        return;
      }
      if !open {
        if p[n] == '{' {
          str := p[i + 1..n];
          open, begin := true, n;
          n := n + 1;
          NoNames(p, n);
          continue;
        }
      } else if p[n] == '}' {
        fmt := p[begin + 1..n];
        open := false;
        ScanBraced(p, i, begin, n);
        n := n + 1;
        return;
      }
      NameKinds(p[n]);
      OneMore(p, i + 1, n);
      if open { OneMore(p, begin + 1, n); }
      n := n + 1;
      if n == |p| {
        if str == "" { str := p[i + 1..]; }
      }
    }
    if open { ScanBraced(p, i, begin, n); } else { ScanBare(p, i, n); }
  }

  lemma NoNames(p: string, n: nat)
    requires n <= |p|
    ensures Names(p, n, n) && NotClosed(p, n, n)
  {
  }

  lemma NameKinds(c: char)
    ensures NameChar(c) <==> IsAlpha(c) || c == '}'
  {
  }

  lemma OneMore(p: string, from: nat, n: nat)
    requires from <= n < |p|
    ensures Names(p, from, n) && NameChar(p[n]) ==> Names(p, from, n + 1)
    ensures NotClosed(p, from, n) && p[n] != '}' ==> NotClosed(p, from, n + 1)
  {
  }

  // One turn of the outer loop.
  lemma ParseTurn(p: string, i: nat, lit: string)
    requires i < |p|
    ensures var s := p[i..];
            Parse(s, lit) ==
            if p[i] != '%' then Parse(p[i + 1..], lit + [p[i]])
            else if i + 1 < |p| && p[i + 1] == '%' then Parse(p[i + 1..], lit + "%")
            else match Scan(p[i + 1..])
                 case Placeholder(name, fmt, len) =>
                   Prepend(Flush(lit) + [Field(name, fmt)], false, Parse(p[i + 1 + len..], ""))
                 case Unclosed => Prepend([Text(ERROR)], true, Parse(p[i + 1..], lit))
  {
    hide Scan;
    assert p[i..][1..] == p[i + 1..];
    if Scan(p[i + 1..]).Placeholder? {
      var len := Scan(p[i + 1..]).len;
      assert p[i..][1 + len..] == p[i + 1 + len..];
    }
  }

  lemma PrependTwice(a: seq<Item>, x: bool, b: seq<Item>, y: bool, r: Parsed)
    ensures Prepend(a, x, Prepend(b, y, r)) == Prepend(a + b, x || y, r)
  {
    assert a + (b + r.items) == a + b + r.items;
  }

  lemma PrependNothing(r: Parsed)
    ensures Prepend([], false, r) == r
  {
    assert [] + r.items == r.items;
  }

  lemma ParseNothing(vec: seq<Item>, error: bool, lit: string)
    ensures Prepend(vec, error, Parse("", lit)) == Parsed(vec + Flush(lit), error)
  {
  }

  method Init(p: string) returns (vec: seq<Item>, error: bool)
    ensures Parsed(vec, error) == Parse(p, "")
  {
    hide Parse, Scan, Prepend;
    vec, error := [], false;
    assert p[0..] == p && Prepend([], false, Parse(p, "")) == Parse(p, "") by { PrependNothing(Parse(p, "")); }
    var nstr := "";
    var i := 0;
    while i < |p|
      invariant 0 <= i <= |p|
      invariant Parse(p, "") == Prepend(vec, error, Parse(p[i..], nstr))
    {
      ParseTurn(p, i, nstr);
      if p[i] != '%' {
        nstr := nstr + [p[i]];
      } else if i + 1 < |p| && p[i + 1] == '%' {
        nstr := nstr + "%";
      } else {
        var str, fmt, n, open := ScanField(p, i);
        ghost var rest := if open then Parse(p[i + 1..], nstr) else Parse(p[n..], "");
        ghost var more := if open then [Text(ERROR)] else Flush(nstr) + [Field(str, fmt)];
        PrependTwice(vec, error, more, open, rest);
        assert vec + [Text(nstr)] + [Field(str, fmt)] == vec + ([Text(nstr)] + [Field(str, fmt)]);
        assert [] + [Field(str, fmt)] == [Field(str, fmt)];
        if !open {
          if nstr != "" {
            vec := vec + [Text(nstr)];
            nstr := "";
          }
          vec := vec + [Field(str, fmt)];
          i := n - 1;
        } else {
          error := true;
          vec := vec + [Text(ERROR)];
        }
      }
      i := i + 1;
    }
    ParseNothing(vec, error, nstr);
    assert p[i..] == "";
    if nstr != "" { vec := vec + [Text(nstr)]; }
  }

  // ---- Printing ----

  // A piece of a pattern as it is written: text, a bare placeholder, or one with a format.
  datatype Piece = Lit(text: string) | Bare(name: string) | Formatted(name: string, fmt: string)

  function Write(x: Piece): string {
    match x
    case Lit(text) => text
    case Bare(name) => "%" + name
    case Formatted(name, fmt) => "%" + (name + ("{" + (fmt + "}")))
  }

  function Print(ps: seq<Piece>): string {
    if ps == [] then "" else Write(ps[0]) + Print(ps[1..])
  }

  function ItemOf(x: Piece): Item {
    match x
    case Lit(text) => Text(text)
    case Bare(name) => Field(name, "")
    case Formatted(name, fmt) => Field(name, fmt)
  }

  function Items(ps: seq<Piece>): seq<Item> {
    if ps == [] then [] else [ItemOf(ps[0])] + Items(ps[1..])
  }

  // Literal text: a percent sign is taken literally only in front of another one.
  predicate Literal(x: string, after: string) {
    forall i | 0 <= i < |x| && x[i] == '%' :: i + 1 < |x + after| && (x + after)[i + 1] == '%'
  }

  // What may stand after a bare placeholder.
  predicate Ends(name: string, after: string) {
    after == "" || (!NameChar(after[0]) && after[0] != '{' && (name == "" ==> after[0] != '%'))
  }

  predicate Proper(ps: seq<Piece>) {
    ps == [] ||
    (&& Proper(ps[1..])
     && match ps[0]
        case Lit(x) => x != "" && Literal(x, Print(ps[1..])) && (|ps| > 1 ==> !ps[1].Lit?)
        case Bare(name) => (forall i | 0 <= i < |name| :: NameChar(name[i])) && Ends(name, Print(ps[1..]))
        case Formatted(name, fmt) => (forall i | 0 <= i < |name| :: NameChar(name[i])) && '}' !in fmt)
  }

  // ---- Parsing what was printed ----

  // A placeholder starts here: a percent sign not followed by another one.
  predicate AtField(s: string) { s != "" && s[0] == '%' && !(|s| > 1 && s[1] == '%') }

  // The literal text in front: up to the end or the first placeholder.
  function LitLen(s: string): (n: nat)
    ensures n <= |s| && (s[n..] == "" || AtField(s[n..]))
  {
    if s == "" || AtField(s) then 0 else 1 + LitLen(s[1..])
  }

  lemma {:induction false} LitLenMeans(s: string, i: nat)
    requires i < LitLen(s)
    ensures s[i] == '%' ==> i + 1 < |s| && s[i + 1] == '%'
  {
    if i > 0 { LitLenMeans(s[1..], i - 1); }
  }

  lemma {:induction false} LitLenIs(s: string, n: nat)
    requires n <= |s| && (s[n..] == "" || AtField(s[n..]))
    requires forall i | 0 <= i < n && s[i] == '%' :: i + 1 < |s| && s[i + 1] == '%'
    ensures LitLen(s) == n
  {
    if n > 0 {
      assert s[1..][n - 1..] == s[n..];
      LitLenIs(s[1..], n - 1);
    } else {
      assert s[0..] == s;
    }
  }

  // Literal text is collected character by character.
  lemma {:induction false} Collected(s: string, lit: string)
    ensures Parse(s, lit) == Parse(s[LitLen(s)..], lit + s[..LitLen(s)])
  {
    var n := LitLen(s);
    if n == 0 {
      assert s[0..] == s && lit + s[..0] == lit;
    } else {
      Collected(s[1..], lit + [s[0]]);
      assert s[1..][n - 1..] == s[n..];
      assert lit + [s[0]] + s[1..][..n - 1] == lit + s[..n];
    }
  }

  // At a placeholder the text is flushed.
  lemma Flushed(s: string, lit: string)
    requires AtField(s) && Scan(s[1..]).Placeholder?
    ensures Parse(s, lit) == Prepend(Flush(lit), false, Parse(s, ""))
  {
    var f := Scan(s[1..]);
    PrependTwice(Flush(lit), false, [Field(f.name, f.fmt)], false, Parse(s[1 + f.len..], ""));
    assert [] + [Field(f.name, f.fmt)] == [Field(f.name, f.fmt)];
  }

  lemma ScanBareWritten(name: string, after: string)
    requires (forall i | 0 <= i < |name| :: NameChar(name[i])) && Ends(name, after)
    ensures Scan(name + after) == Placeholder(name, "", |name|)
  {
    NameLenIs(name + after, |name|);
  }

  lemma ScanFormattedWritten(name: string, fmt: string, after: string)
    requires (forall i | 0 <= i < |name| :: NameChar(name[i])) && '}' !in fmt
    ensures Scan(name + ("{" + (fmt + "}")) + after) == Placeholder(name, fmt, |name| + |fmt| + 2)
  {
    var t, e, k := name + ("{" + (fmt + "}")) + after, |name|, |fmt|;
    assert t[e + 1..e + 1 + k] == fmt;
    assert forall j | 0 <= j < k :: fmt[j] == t[e + 1..e + 1 + k][j] == t[e + 1 + j];
    ScanAt(t, e, k);
    hide Scan;
  }

  // A placeholder that may stand in front of `q`.
  predicate ProperField(x: Piece, q: string) {
    match x
    case Lit(_) => false
    case Bare(name) => (forall i | 0 <= i < |name| :: NameChar(name[i])) && Ends(name, q)
    case Formatted(name, fmt) => (forall i | 0 <= i < |name| :: NameChar(name[i])) && '}' !in fmt
  }

  // What stands where in a written placeholder.
  lemma WrittenFormatted(name: string, fmt: string, q: string)
    ensures var s := Write(Formatted(name, fmt)) + q;
            && s[0] == '%' && s[1..] == name + ("{" + (fmt + "}")) + q && s[1 + (|name| + |fmt| + 2)..] == q
            && s[1] == if name == "" then '{' else name[0]
  {
    var body := name + ("{" + (fmt + "}"));
    var s := "%" + body + q;
    assert s[1..] == body + q && s[1 + |body|..] == q && s[1] == body[0];
  }

  lemma WrittenBare(name: string, q: string)
    ensures var s := Write(Bare(name)) + q; s[0] == '%' && s[1..] == name + q && s[1 + |name|..] == q
    ensures var s := Write(Bare(name)) + q; |q| >= 2 ==> s[1 + (|name| + 2)..] == q[2..]
    ensures var s := Write(Bare(name)) + q; |s| > 1 ==> s[1] == if name == "" then q[0] else name[0]
  {
  }

  lemma FieldScans(x: Piece, q: string)
    requires ProperField(x, q)
    ensures var s := Write(x) + q; AtField(s) && Scan(s[1..]) == Placeholder(ItemOf(x).name, ItemOf(x).fmt, |Write(x)| - 1)
  {
    hide Scan;
    match x
    case Bare(name) =>
      WrittenBare(name, q);
      ScanBareWritten(name, q);
    case Formatted(name, fmt) =>
      WrittenFormatted(name, fmt, q);
      ScanFormattedWritten(name, fmt, q);
  }

  lemma FieldParses(x: Piece, q: string)
    requires ProperField(x, q)
    ensures Parse(Write(x) + q, "") == Prepend([ItemOf(x)], false, Parse(q, ""))
  {
    FieldScans(x, q);
    var s := Write(x) + q;
    hide Scan, ProperField, Write;
    assert s[|Write(x)|..] == q;
    assert [] + [ItemOf(x)] == [ItemOf(x)];
  }

  lemma TextParses(x: string, q: string)
    requires x != "" && Literal(x, q) && (q == "" || (AtField(q) && Scan(q[1..]).Placeholder?))
    ensures Parse(x + q, "") == Prepend([Text(x)], false, Parse(q, ""))
  {
    hide Scan;
    var s := x + q;
    assert s[|x|..] == q && s[..|x|] == x;
    forall i | 0 <= i < |x| && s[i] == '%' ensures i + 1 < |s| && s[i + 1] == '%' { assert x[i] == '%'; }
    LitLenIs(s, |x|);
    Collected(s, "");
    assert "" + x == x;
    if q != "" { Flushed(q, x); }
  }

  lemma {:induction false} ProperParses(ps: seq<Piece>)
    requires Proper(ps)
    ensures Parse(Print(ps), "") == Parsed(Items(ps), false)
  {
    if ps != [] {
      var x, q := ps[0], Print(ps[1..]);
      ProperParses(ps[1..]);
      if x.Lit? {
        if |ps| > 1 { FieldScans(ps[1], Print(ps[1..][1..])); }
        TextParses(x.text, q);
      } else {
        FieldParses(x, q);
      }
    }
  }

  // ---- What parses back was proper ----

  // A parse without error: text up to the first placeholder, or a placeholder.
  lemma Shape(s: string)
    requires !Parse(s, "").error
    ensures var n := LitLen(s);
            if n > 0 then Parse(s, "") == Prepend([Text(s[..n])], false, Parse(s[n..], ""))
            else if s == "" then Parse(s, "") == Parsed([], false)
            else AtField(s) && Scan(s[1..]).Placeholder? &&
                 var f := Scan(s[1..]);
                 Parse(s, "") == Prepend([Field(f.name, f.fmt)], false, Parse(s[1 + f.len..], ""))
  {
    hide Scan;
    var n := LitLen(s);
    if n > 0 {
      Collected(s, "");
      assert "" + s[..n] == s[..n];
      if s[n..] != "" { Flushed(s[n..], s[..n]); }
    } else if s != "" {
      assert s[0..] == s;
      var f := Scan(s[1..]);
      if f.Placeholder? { assert [] + [Field(f.name, f.fmt)] == [Field(f.name, f.fmt)]; }
    }
  }

  // The first item, taken off both sides.
  lemma Tail(r: Parsed, head: Item, rest: Parsed, x: Item, xs: seq<Item>)
    requires r == Prepend([head], false, rest) && r == Parsed([x] + xs, false)
    ensures head == x && rest == Parsed(xs, false)
  {
    assert r.items[0] == head && r.items[0] == x;
    assert r.items[1..] == rest.items && r.items[1..] == xs;
  }

  // What the parser makes of a string that starts with a placeholder, or is empty, starts with a field, or is empty.
  lemma StartsWithField(q: string, ps: seq<Piece>)
    requires q == "" || AtField(q)
    requires Parse(q, "") == Parsed(Items(ps), false)
    ensures if q == "" then ps == [] else ps != [] && !ps[0].Lit? && Print(ps) != "" && Print(ps)[0] == '%'
  {
    hide Scan;
    Shape(q);
    if q == "" {
      assert Items(ps) == [];
    } else {
      var f := Scan(q[1..]);
      assert Parse(q, "").items[0] == Field(f.name, f.fmt);
    }
  }

  lemma ProperLit(ps: seq<Piece>)
    requires ps != [] && ps[0].Lit? && Parse(Print(ps), "") == Parsed(Items(ps), false)
    ensures var x, q := ps[0].text, Print(ps[1..]);
            && x != "" && Literal(x, q) && (|ps| > 1 ==> !ps[1].Lit?)
            && Parse(q, "") == Parsed(Items(ps[1..]), false)
  {
    hide Scan, Parse;
    var x, q, s := ps[0].text, Print(ps[1..]), Print(ps);
    Shape(s);
    var n := LitLen(s);
    assert Parse(s, "").items[0] == Text(x);
    assert n > 0;
    Tail(Parse(s, ""), Text(s[..n]), Parse(s[n..], ""), Text(x), Items(ps[1..]));
    assert n == |x| && s[n..] == q;
    StartsWithField(q, ps[1..]);
    forall i | 0 <= i < |x| && x[i] == '%' ensures i + 1 < |x + q| && (x + q)[i + 1] == '%' {
      LitLenMeans(s, i);
    }
  }

  lemma UnscanFormatted(name: string, fmt: string, q: string)
    requires var r := Scan(name + ("{" + (fmt + "}")) + q); r.Placeholder? && r.name == name && r.fmt == fmt
    ensures (forall i | 0 <= i < |name| :: NameChar(name[i])) && '}' !in fmt
    ensures Scan(name + ("{" + (fmt + "}")) + q).len == |name| + |fmt| + 2
  {
    var t, e := name + ("{" + (fmt + "}")) + q, |name|;
    assert NameLen(t) == e;
    assert forall i | 0 <= i < e :: name[i] == t[i];
    assert t[e] == '{';
    var k := FmtLen(t[e + 1..]);
    assert fmt == t[e + 1..e + 1 + k];
    assert forall i | 0 <= i < k :: fmt[i] == t[e + 1..][i];
  }

  lemma UnscanBare(name: string, q: string)
    requires var r := Scan(name + q); r.Placeholder? && r.name == name && r.fmt == ""
    ensures forall i | 0 <= i < |name| :: NameChar(name[i])
    ensures q == "" || !NameChar(q[0])
    ensures if q != "" && q[0] == '{' then |q| > 1 && q[1] == '}' && Scan(name + q).len == |name| + 2
            else Scan(name + q).len == |name|
  {
    var t, e := name + q, |name|;
    assert NameLen(t) == e;
    assert forall i | 0 <= i < e :: name[i] == t[i];
    if q != "" {
      assert t[e] == q[0];
      if q[0] == '{' {
        var k := FmtLen(t[e + 1..]);
        assert k == 0 && t[e + 1] == '}' && q[1] == t[e + 1];
      }
    }
  }

  lemma {:induction false} Periodic(q: string, m: nat, j: nat)
    requires j < m + 2 <= |q| && q[0] == '{' && q[1] == '}'
    requires forall k | 0 <= k < m :: q[k + 2] == q[k]
    ensures q[j] == '{' || q[j] == '}'
  {
    if j >= 2 {
      Periodic(q, m, j - 2);
      assert q[j - 2 + 2] == q[j - 2];
    }
  }

  // A pair of braces after a bare name is taken as its format, and what is left cannot parse back.
  lemma NoBraces(ps: seq<Piece>)
    requires var q := Print(ps); |q| > 1 && q[0] == '{' && q[1] == '}'
    ensures Parse(Print(ps)[2..], "") != Parsed(Items(ps), false)
  {
    hide Scan, Parse, LitLen, AtField;
    var q := Print(ps);
    if Parse(q[2..], "") == Parsed(Items(ps), false) {
      var x, n := ps[0].text, LitLen(q[2..]);
      Shape(q[2..]);
      assert Parse(q[2..], "").items[0] == Text(x);
      Tail(Parse(q[2..], ""), Text(q[2..][..n]), Parse(q[2..][n..], ""), Text(x), Items(ps[1..]));
      StartsWithField(q[2..][n..], ps[1..]);
      assert q[n] == Print(ps[1..])[0];
      Shifted(q, x);
    }
  }

  // Text that stands both at the front and after a pair of braces is made of braces.
  lemma Shifted(q: string, x: string)
    requires |x| + 2 <= |q| && q[0] == '{' && q[1] == '}' && x == q[..|x|] && x == q[2..|x| + 2]
    ensures q[|x|] == '{' || q[|x|] == '}'
  {
    forall k | 0 <= k < |x| ensures q[k + 2] == q[k] { assert x[k] == q[k] && x[k] == q[k + 2]; }
    Periodic(q, |x|, |x|);
  }

  // A placeholder at the front of the pattern parses back: what the scan found.
  lemma FirstField(ps: seq<Piece>)
    requires ps != [] && !ps[0].Lit? && Parse(Print(ps), "") == Parsed(Items(ps), false)
    ensures var s, x := Print(ps), ItemOf(ps[0]);
            var f := Scan(s[1..]);
            && AtField(s) && f.Placeholder? && f.name == x.name && f.fmt == x.fmt
            && Parse(s[1 + f.len..], "") == Parsed(Items(ps[1..]), false)
  {
    hide Scan, Parse;
    var x, s := ItemOf(ps[0]), Print(ps);
    Shape(s);
    assert Parse(s, "").items[0] == x;
    var f := Scan(s[1..]);
    Tail(Parse(s, ""), Field(f.name, f.fmt), Parse(s[1 + f.len..], ""), x, Items(ps[1..]));
  }

  lemma ProperFormatted(ps: seq<Piece>)
    requires ps != [] && ps[0].Formatted? && Parse(Print(ps), "") == Parsed(Items(ps), false)
    ensures var q := Print(ps[1..]); ProperField(ps[0], q) && Parse(q, "") == Parsed(Items(ps[1..]), false)
  {
    hide Scan, Parse, Items, AtField, Write;
    FirstField(ps);
    WrittenFormatted(ps[0].name, ps[0].fmt, Print(ps[1..]));
    UnscanFormatted(ps[0].name, ps[0].fmt, Print(ps[1..]));
  }

  lemma ProperBare(ps: seq<Piece>)
    requires ps != [] && ps[0].Bare? && Parse(Print(ps), "") == Parsed(Items(ps), false)
    ensures var q := Print(ps[1..]); ProperField(ps[0], q) && Parse(q, "") == Parsed(Items(ps[1..]), false)
  {
    hide Scan, Parse, Items, Write;
    FirstField(ps);
    var name, q := ps[0].name, Print(ps[1..]);
    WrittenBare(name, q);
    UnscanBare(name, q);
    if q != "" && q[0] == '{' { NoBraces(ps[1..]); }
  }

  lemma {:induction false} ParsesProper(ps: seq<Piece>)
    requires Parse(Print(ps), "") == Parsed(Items(ps), false)
    ensures Proper(ps)
  {
    hide Parse;
    if ps != [] {
      if ps[0].Lit? { ProperLit(ps); } else if ps[0].Bare? { ProperBare(ps); } else { ProperFormatted(ps); }
      ParsesProper(ps[1..]);
    }
  }

  /** The parser inverts the printer, without an error, exactly on the proper lists of pieces. */
  lemma RoundTrip(ps: seq<Piece>)
    ensures Parse(Print(ps), "") == Parsed(Items(ps), false) <==> Proper(ps)
  {
    if Proper(ps) { ProperParses(ps); }
    if Parse(Print(ps), "") == Parsed(Items(ps), false) { ParsesProper(ps); }
  }

  // A percent sign written double inside text: the second one starts a placeholder.
  lemma DoubledPercent()
    ensures Print([Lit("a%%b")]) == "a%%b"
    ensures Parse("a%%b", "") == Parsed([Text("a%"), Field("b", "")], false)
    ensures Parse(Print([Lit("a%%b")]), "") != Parsed(Items([Lit("a%%b")]), false)
  {
    hide Parse, Scan, NameLen;
    assert [Lit("a%%b")][1..] == [];
    var p := "a%%b";
    assert p[4..] == "" && p[3..4] == "b" && p[0..] == p;
    assert "" + [p[0]] == "a" && "a" + "%" == "a%";
    ParseTurn(p, 0, "");
    ParseTurn(p, 1, "a");
    ParseTurn(p, 2, "a%");
    ScanBare(p, 2, 4);
    var items := [Text("a%"), Field("b", "")];
    assert Flush("a%") + [Field("b", "")] == items && items + [] == items;
    ParseNothing(items, false, "");
  }
}

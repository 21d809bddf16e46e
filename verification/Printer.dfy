/** The canonical text and its injectivity
    (JSON.stringify as used by server/src/common/canonical.ts:22-25). */
module Printer {
  import opened Canonical

  const QUOTE: Unit := 34
  const COMMA: Unit := 44
  const COLON: Unit := 58
  const BACKSLASH: Unit := 92
  const OPEN_ARRAY: Unit := 91
  const CLOSE_ARRAY: Unit := 93
  const OPEN_OBJECT: Unit := 123
  const CLOSE_OBJECT: Unit := 125
  const NULL: Text := [110, 117, 108, 108]
  const TRUE: Text := [116, 114, 117, 101]
  const FALSE: Text := [102, 97, 108, 115, 101]

  // ---- strings -------------------------------------------------------------

  predicate HighSurrogate(u: Unit) {
    0xD800 <= u < 0xDC00
  }

  predicate LowSurrogate(u: Unit) {
    0xDC00 <= u < 0xE000
  }

  function HexUnit(d: nat): Unit
    requires d < 16
  {
    if d < 10 then 48 + d else 87 + d
  }

  /** The letter of a short escape, or 0. */
  function ShortEscape(u: Unit): Unit {
    if u == QUOTE || u == BACKSLASH then u
    else if u == 8 then 98
    else if u == 12 then 102
    else if u == 10 then 110
    else if u == 13 then 114
    else if u == 9 then 116
    else 0
  }

  function LongEscape(u: Unit): Text {
    [BACKSLASH, 117, HexUnit(u / 4096), HexUnit(u / 256 % 16), HexUnit(u / 16 % 16), HexUnit(u % 16)]
  }

  /** A unit on its own: surrogates without a partner are escaped. */
  function EscapeUnit(u: Unit): Text {
    if ShortEscape(u) != 0 then [BACKSLASH, ShortEscape(u)]
    else if u < 32 || HighSurrogate(u) || LowSurrogate(u) then LongEscape(u)
    else [u]
  }

  predicate StartsWithPair(s: Text) {
    |s| >= 2 && HighSurrogate(s[0]) && LowSurrogate(s[1])
  }

  function Escape(s: Text): Text {
    if s == [] then []
    else if StartsWithPair(s) then s[..2] + Escape(s[2..])
    else EscapeUnit(s[0]) + Escape(s[1..])
  }

  function Quote(s: Text): Text {
    [QUOTE] + Escape(s) + [QUOTE]
  }

  // ---- values --------------------------------------------------------------

  function Print(number: Number -> Text, v: Json): Text
    decreases v, 1
  {
    match v
    case Null => NULL
    case Bool(b) => if b then TRUE else FALSE
    case Num(n) => number(n)
    case Str(s) => Quote(s)
    case Arr(items) =>
      [OPEN_ARRAY] + if items == [] then [CLOSE_ARRAY]
                     else Print(number, items[0]) + PrintItems(number, items[1..])
    case Obj(ms) =>
      [OPEN_OBJECT] + if ms == [] then [CLOSE_OBJECT]
                      else PrintMember(number, ms[0]) + PrintMembers(number, ms[1..])
  }

  function PrintItems(number: Number -> Text, items: seq<Json>): Text
    decreases items, 0
  {
    if items == [] then [CLOSE_ARRAY]
    else [COMMA] + Print(number, items[0]) + PrintItems(number, items[1..])
  }

  function PrintMember(number: Number -> Text, m: Member): Text
    decreases m, 2
  {
    Quote(m.key) + [COLON] + Print(number, m.value)
  }

  function PrintMembers(number: Number -> Text, ms: seq<Member>): Text
    decreases ms, 0
  {
    if ms == [] then [CLOSE_OBJECT]
    else [COMMA] + PrintMember(number, ms[0]) + PrintMembers(number, ms[1..])
  }

  function CanonicalJson(number: Number -> Text, v: Json): Text {
    Print(number, SortValue(v))
  }

  // ---- escapes can be read back --------------------------------------------

  lemma HexUnitInjective(c: nat, d: nat)
    requires c < 16 && d < 16 && HexUnit(c) == HexUnit(d)
    ensures c == d
  {
  }

  lemma LongEscapeInjective(u: Unit, w: Unit)
    requires LongEscape(u) == LongEscape(w)
    ensures u == w
  {
    var a, b := LongEscape(u), LongEscape(w);
    assert a[2] == b[2] && a[3] == b[3] && a[4] == b[4] && a[5] == b[5];
    HexUnitInjective(u / 4096, w / 4096);
    HexUnitInjective(u / 256 % 16, w / 256 % 16);
    HexUnitInjective(u / 16 % 16, w / 16 % 16);
    HexUnitInjective(u % 16, w % 16);
    HexDigits(u);
    HexDigits(w);
  }

  lemma HexDigits(u: Unit)
    ensures u == u / 4096 * 4096 + u / 256 % 16 * 256 + u / 16 % 16 * 16 + u % 16
  {
    var a, b, c := u / 16, u / 256, u / 4096;
    assert a / 16 == b && b / 16 == c;
    assert u == 16 * a + u % 16 && a == 16 * b + a % 16 && b == 16 * c + b % 16;
  }

  /** No escape is a prefix of another one. */
  lemma EscapeUnitPrefixFree(u: Unit, w: Unit, x: Text, y: Text)
    requires EscapeUnit(u) + x == EscapeUnit(w) + y
    ensures u == w && x == y
  {
    var a, b := EscapeUnit(u), EscapeUnit(w);
    assert (a + x)[0] == a[0] && (b + y)[0] == b[0];
    if |a| >= 2 && |b| >= 2 {
      assert (a + x)[1] == a[1] && (b + y)[1] == b[1];
    }
    assert |a| == |b|;
    assert (a + x)[..|a|] == a && (b + y)[..|b|] == b;
    assert (a + x)[|a|..] == x && (b + y)[|b|..] == y;
    if |a| == 6 {
      LongEscapeInjective(u, w);
    }
  }

  /** The first printed unit tells a raw pair, an escaped unit and the closing
      quote apart. */
  lemma EscapeHead(s: Text, x: Text)
    ensures var e := Quoted(s, x);
            && e != []
            && (s == [] <==> e[0] == QUOTE)
            && (StartsWithPair(s) <==> HighSurrogate(e[0]))
  {
    var e := Quoted(s, x);
    if s == [] {
      assert e[0] == QUOTE;
    } else if StartsWithPair(s) {
      assert e[0] == s[0];
    } else {
      assert e[0] == EscapeUnit(s[0])[0];
    }
  }

  /** Escape(s) up to the closing quote and what follows, one step at a time. */
  ghost function Quoted(s: Text, x: Text): Text {
    Escape(s) + [QUOTE] + x
  }

  lemma QuotedStep(s: Text, x: Text)
    ensures s == [] ==> Quoted(s, x) == [QUOTE] + x
    ensures StartsWithPair(s) ==> Quoted(s, x) == s[..2] + Quoted(s[2..], x)
    ensures s != [] && !StartsWithPair(s) ==> Quoted(s, x) == EscapeUnit(s[0]) + Quoted(s[1..], x)
  {
  }

  lemma DropTwo(p: Text, q: Text, a: Text, b: Text)
    requires |p| == |q| && p + a == q + b
    ensures p == q && a == b
  {
    assert (p + a)[..|p|] == p && (q + b)[..|q|] == q;
    assert (p + a)[|p|..] == a && (q + b)[|q|..] == b;
  }

  /** A quoted string is determined by any text that starts with it. */
  lemma {:induction false} EscapeInjective(s: Text, t: Text, x: Text, y: Text)
    requires Quoted(s, x) == Quoted(t, y)
    ensures s == t && x == y
    decreases |s|
  {
    hide Escape, EscapeUnit, Quoted;
    EscapeHead(s, x);
    EscapeHead(t, y);
    QuotedStep(s, x);
    QuotedStep(t, y);
    if s == [] {
      DropTwo([QUOTE], [QUOTE], x, y);
    } else if StartsWithPair(s) {
      DropTwo(s[..2], t[..2], Quoted(s[2..], x), Quoted(t[2..], y));
      EscapeInjective(s[2..], t[2..], x, y);
      assert s == s[..2] + s[2..] && t == t[..2] + t[2..];
    } else {
      EscapeUnitPrefixFree(s[0], t[0], Quoted(s[1..], x), Quoted(t[1..], y));
      EscapeInjective(s[1..], t[1..], x, y);
      assert s == [s[0]] + s[1..] && t == [t[0]] + t[1..];
    }
  }

  lemma QuoteInjective(s: Text, t: Text, x: Text, y: Text)
    requires Quote(s) + x == Quote(t) + y
    ensures s == t && x == y
  {
    assert Quote(s) + x == [QUOTE] + Quoted(s, x) && Quote(t) + y == [QUOTE] + Quoted(t, y);
    DropTwo([QUOTE], [QUOTE], Quoted(s, x), Quoted(t, y));
    EscapeInjective(s, t, x, y);
  }

  // ---- printing is injective -----------------------------------------------

  predicate NumberUnit(u: Unit) {
    48 <= u < 58 || u == 45 || u == 43 || u == 46 || u == 101
  }

  /** What is used of the number printer: different numbers print differently,
      in digits, sign, point and exponent, starting with a digit or a minus. */
  ghost predicate NumberPrinter(number: Number -> Text) {
    && (forall m, n :: number(m) == number(n) ==> m == n)
    && forall n :: number(n) != [] && (48 <= number(n)[0] < 58 || number(n)[0] == 45)
                   && forall i :: 0 <= i < |number(n)| ==> NumberUnit(number(n)[i])
  }

  function Digits(n: nat): Text {
    if n < 10 then [48 + n] else Digits(n / 10) + [48 + n % 10]
  }

  function Decimal(n: Number): Text {
    if n < 0 then [45] + Digits(-n) else Digits(n)
  }

  function DigitsValue(t: Text): int {
    if t == [] then 0 else 10 * DigitsValue(t[..|t| - 1]) + t[|t| - 1] - 48
  }

  lemma {:induction false} DigitsAreNumeric(n: nat)
    ensures DigitsValue(Digits(n)) == n && Digits(n) != [] && 48 <= Digits(n)[0] < 58
    ensures forall i :: 0 <= i < |Digits(n)| ==> 48 <= Digits(n)[i] < 58
  {
    if n < 10 {
      assert Digits(n)[..0] == [];
    } else {
      DigitsAreNumeric(n / 10);
      assert Digits(n)[..|Digits(n)| - 1] == Digits(n / 10);
    }
  }

  /** There are such printers: decimal notation is one. */
  lemma DecimalIsNumberPrinter()
    ensures NumberPrinter(n => Decimal(n))
  {
    forall n: Number
      ensures Decimal(n) != [] && (48 <= Decimal(n)[0] < 58 || Decimal(n)[0] == 45)
      ensures forall i :: 0 <= i < |Decimal(n)| ==> NumberUnit(Decimal(n)[i])
      ensures (if Decimal(n)[0] == 45 then -DigitsValue(Decimal(n)[1..]) else DigitsValue(Decimal(n))) == n
    {
      DigitsAreNumeric(if n < 0 then -n else n);
    }
  }

  /** What may follow a value inside a larger one. */
  predicate Follows(x: Text) {
    x == [] || x[0] == COMMA || x[0] == CLOSE_ARRAY || x[0] == CLOSE_OBJECT
  }

  lemma NotShorter(a: Text, x: Text, b: Text, y: Text)
    requires a + x == b + y && Follows(x) && forall i :: 0 <= i < |b| ==> NumberUnit(b[i])
    ensures |a| >= |b|
  {
    if |a| < |b| {
      Shorter(a, x, b, y);
    }
  }

  lemma Shorter(a: Text, x: Text, b: Text, y: Text)
    requires a + x == b + y && |a| < |b|
    ensures x != [] && x[0] == b[|a|]
  {
    assert (a + x)[|a|] == (b + y)[|a|];
  }

  lemma NumberInjective(number: Number -> Text, m: Number, n: Number, x: Text, y: Text)
    requires NumberPrinter(number) && Follows(x) && Follows(y) && number(m) + x == number(n) + y
    ensures m == n && x == y
  {
    NotShorter(number(m), x, number(n), y);
    NotShorter(number(n), y, number(m), x);
    DropTwo(number(m), number(n), x, y);
  }

  /** The kind of a value, read off its first printed unit. */
  lemma HeadUnit(number: Number -> Text, v: Json, x: Text)
    requires NumberPrinter(number)
    ensures Print(number, v) != []
    ensures var h := (Print(number, v) + x)[0];
            && (v.Null? <==> h == 110)
            && (v == Bool(true) <==> h == 116)
            && (v == Bool(false) <==> h == 102)
            && (v.Num? <==> 48 <= h < 58 || h == 45)
            && (v.Str? <==> h == QUOTE)
            && (v.Arr? <==> h == OPEN_ARRAY)
            && (v.Obj? <==> h == OPEN_OBJECT)
            && h != CLOSE_ARRAY
  {
    assert (Print(number, v) + x)[0] == Print(number, v)[0];
  }

  lemma {:induction false} PrintInjective(number: Number -> Text, a: Json, b: Json, x: Text, y: Text)
    requires NumberPrinter(number) && Follows(x) && Follows(y)
    requires Print(number, a) + x == Print(number, b) + y
    ensures a == b && x == y
    decreases a, 1
  {
    HeadUnit(number, a, x);
    HeadUnit(number, b, y);
    match a
    case Num(m) =>
      NumberInjective(number, m, b.n, x, y);
    case Str(s) =>
      QuoteInjective(s, b.s, x, y);
    case Arr(items) =>
      ArrayInjective(number, items, b.items, x, y);
    case Obj(ms) =>
      ObjectInjective(number, ms, b.members, x, y);
    case _ =>
      DropTwo(Print(number, a), Print(number, b), x, y);
  }

  lemma ItemsFollow(number: Number -> Text, items: seq<Json>, x: Text)
    ensures Follows(PrintItems(number, items) + x)
    ensures (PrintItems(number, items) + x)[0] == if items == [] then CLOSE_ARRAY else COMMA
  {
  }

  lemma MembersFollow(number: Number -> Text, ms: seq<Member>, x: Text)
    ensures Follows(PrintMembers(number, ms) + x)
    ensures (PrintMembers(number, ms) + x)[0] == if ms == [] then CLOSE_OBJECT else COMMA
  {
  }

  lemma ArrayStep(number: Number -> Text, items: seq<Json>, x: Text)
    requires NumberPrinter(number)
    ensures Print(number, Arr(items)) + x == [OPEN_ARRAY] + Elements(number, items, x)
    ensures Elements(number, items, x) != []
    ensures Elements(number, items, x)[0] == CLOSE_ARRAY <==> items == []
  {
    if items != [] {
      HeadUnit(number, items[0], PrintItems(number, items[1..]) + x);
    }
  }

  lemma ItemsStep(number: Number -> Text, items: seq<Json>, x: Text)
    ensures PrintItems(number, items) + x != []
    ensures (PrintItems(number, items) + x)[0] == if items == [] then CLOSE_ARRAY else COMMA
    ensures items == [] ==> PrintItems(number, items) + x == [CLOSE_ARRAY] + x
    ensures items != [] ==> PrintItems(number, items) + x == [COMMA] + Elements(number, items, x)
  {
    hide Print;
    if items != [] {
      Regroup([COMMA], Print(number, items[0]), PrintItems(number, items[1..]), x);
    }
  }

  lemma Regroup(a: Text, b: Text, c: Text, d: Text)
    ensures a + b + c + d == a + (b + (c + d))
  {
  }

  lemma {:induction false} ElementsInjective(number: Number -> Text, xs: seq<Json>, ys: seq<Json>, x: Text, y: Text)
    requires NumberPrinter(number) && xs != [] && ys != []
    requires Elements(number, xs, x) == Elements(number, ys, y)
    ensures xs == ys && x == y
    decreases xs, 0
  {
    hide Print, PrintItems, NumberPrinter;
    ItemsFollow(number, xs[1..], x);
    ItemsFollow(number, ys[1..], y);
    PrintInjective(number, xs[0], ys[0], PrintItems(number, xs[1..]) + x, PrintItems(number, ys[1..]) + y);
    ItemsInjective(number, xs[1..], ys[1..], x, y);
    assert xs == [xs[0]] + xs[1..] && ys == [ys[0]] + ys[1..];
  }

  lemma {:induction false} ArrayInjective(number: Number -> Text, xs: seq<Json>, ys: seq<Json>, x: Text, y: Text)
    requires NumberPrinter(number) && Print(number, Arr(xs)) + x == Print(number, Arr(ys)) + y
    ensures xs == ys && x == y
    decreases xs, 1
  {
    hide Print, PrintItems, NumberPrinter;
    ArrayStep(number, xs, x);
    ArrayStep(number, ys, y);
    DropTwo([OPEN_ARRAY], [OPEN_ARRAY], Elements(number, xs, x), Elements(number, ys, y));
    if xs == [] {
      DropTwo([CLOSE_ARRAY], [CLOSE_ARRAY], x, y);
    } else {
      ElementsInjective(number, xs, ys, x, y);
    }
  }

  lemma {:induction false} ItemsInjective(number: Number -> Text, xs: seq<Json>, ys: seq<Json>, x: Text, y: Text)
    requires NumberPrinter(number) && PrintItems(number, xs) + x == PrintItems(number, ys) + y
    ensures xs == ys && x == y
    decreases xs, 1
  {
    hide Print, PrintItems, NumberPrinter, Elements;
    ItemsStep(number, xs, x);
    ItemsStep(number, ys, y);
    if xs == [] {
      DropTwo([CLOSE_ARRAY], [CLOSE_ARRAY], x, y);
    } else {
      DropTwo([COMMA], [COMMA], Elements(number, xs, x), Elements(number, ys, y));
      ElementsInjective(number, xs, ys, x, y);
    }
  }

  /** The text of an array or object after its opening bracket, with what follows. */
  ghost function Elements(number: Number -> Text, items: seq<Json>, x: Text): Text {
    if items == [] then [CLOSE_ARRAY] + x else Print(number, items[0]) + (PrintItems(number, items[1..]) + x)
  }

  ghost function Properties(number: Number -> Text, ms: seq<Member>, x: Text): Text {
    if ms == [] then [CLOSE_OBJECT] + x else PrintMember(number, ms[0]) + (PrintMembers(number, ms[1..]) + x)
  }

  lemma ObjectStep(number: Number -> Text, ms: seq<Member>, x: Text)
    ensures Print(number, Obj(ms)) + x == [OPEN_OBJECT] + Properties(number, ms, x)
    ensures Properties(number, ms, x) != []
    ensures Properties(number, ms, x)[0] == if ms == [] then CLOSE_OBJECT else QUOTE
  {
  }

  lemma MembersStep(number: Number -> Text, ms: seq<Member>, x: Text)
    ensures PrintMembers(number, ms) + x != []
    ensures (PrintMembers(number, ms) + x)[0] == if ms == [] then CLOSE_OBJECT else COMMA
    ensures ms == [] ==> PrintMembers(number, ms) + x == [CLOSE_OBJECT] + x
    ensures ms != [] ==> PrintMembers(number, ms) + x == [COMMA] + Properties(number, ms, x)
  {
    hide Print, PrintMember;
    if ms != [] {
      Regroup([COMMA], PrintMember(number, ms[0]), PrintMembers(number, ms[1..]), x);
    }
  }

  lemma MemberStep(number: Number -> Text, m: Member, x: Text)
    ensures PrintMember(number, m) + x == Quote(m.key) + ([COLON] + (Print(number, m.value) + x))
  {
  }

  lemma {:induction false} MemberInjective(number: Number -> Text, m: Member, n: Member, x: Text, y: Text)
    requires NumberPrinter(number) && Follows(x) && Follows(y)
    requires PrintMember(number, m) + x == PrintMember(number, n) + y
    ensures m == n && x == y
    decreases m, 2
  {
    hide Print, PrintMember, Quote, NumberPrinter;
    MemberStep(number, m, x);
    MemberStep(number, n, y);
    var a, b := Print(number, m.value) + x, Print(number, n.value) + y;
    QuoteInjective(m.key, n.key, [COLON] + a, [COLON] + b);
    DropTwo([COLON], [COLON], a, b);
    PrintInjective(number, m.value, n.value, x, y);
  }

  lemma {:induction false} PropertiesInjective(number: Number -> Text, ms: seq<Member>, ns: seq<Member>, x: Text,
                                               y: Text)
    requires NumberPrinter(number) && ms != [] && ns != []
    requires Properties(number, ms, x) == Properties(number, ns, y)
    ensures ms == ns && x == y
    decreases ms, 0
  {
    hide Print, PrintMember, PrintMembers, NumberPrinter;
    MembersFollow(number, ms[1..], x);
    MembersFollow(number, ns[1..], y);
    MemberInjective(number, ms[0], ns[0], PrintMembers(number, ms[1..]) + x, PrintMembers(number, ns[1..]) + y);
    MembersInjective(number, ms[1..], ns[1..], x, y);
    assert ms == [ms[0]] + ms[1..] && ns == [ns[0]] + ns[1..];
  }

  lemma {:induction false} ObjectInjective(number: Number -> Text, ms: seq<Member>, ns: seq<Member>, x: Text, y: Text)
    requires NumberPrinter(number) && Print(number, Obj(ms)) + x == Print(number, Obj(ns)) + y
    ensures ms == ns && x == y
    decreases ms, 1
  {
    hide Print, PrintMember, PrintMembers, NumberPrinter;
    ObjectStep(number, ms, x);
    ObjectStep(number, ns, y);
    DropTwo([OPEN_OBJECT], [OPEN_OBJECT], Properties(number, ms, x), Properties(number, ns, y));
    if ms == [] {
      DropTwo([CLOSE_OBJECT], [CLOSE_OBJECT], x, y);
    } else {
      PropertiesInjective(number, ms, ns, x, y);
    }
  }

  lemma {:induction false} MembersInjective(number: Number -> Text, ms: seq<Member>, ns: seq<Member>, x: Text, y: Text)
    requires NumberPrinter(number) && PrintMembers(number, ms) + x == PrintMembers(number, ns) + y
    ensures ms == ns && x == y
    decreases ms, 1
  {
    hide Print, PrintMember, PrintMembers, NumberPrinter, Properties;
    MembersStep(number, ms, x);
    MembersStep(number, ns, y);
    if ms == [] {
      DropTwo([CLOSE_OBJECT], [CLOSE_OBJECT], x, y);
    } else {
      DropTwo([COMMA], [COMMA], Properties(number, ms, x), Properties(number, ns, y));
      PropertiesInjective(number, ms, ns, x, y);
    }
  }

  /** Two values have the same canonical text exactly when they are equal up to
      the order of members at every depth. */
  lemma CanonicalJsonIdentifies(number: Number -> Text, a: Json, b: Json)
    requires NumberPrinter(number) && WellFormed(a) && WellFormed(b)
    ensures CanonicalJson(number, a) == CanonicalJson(number, b) <==> Equivalent(a, b)
  {
    SortIdentifies(a, b);
    if CanonicalJson(number, a) == CanonicalJson(number, b) {
      var sa, sb := SortValue(a), SortValue(b);
      assert Print(number, sa) + [] == Print(number, sb) + [];
      PrintInjective(number, sa, sb, [], []);
    }
  }
}
